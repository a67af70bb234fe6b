/** What each billing call answers, charges and changes, told by the user's records as they stand, the
    moment of the call and what it carries. */
module UsageOutcomes {
  import opened Common
  import opened JsMap
  import Draws
  import opened Funds
  import opened Usage
  import opened UsageFunds
  import opened UsageMoney
  import opened UsageBooks
  import opened UsageTheorems
  import TaskBoard

  // ---- The terms ----

  /** What a grant can pay at a moment. */
  function Spendable(now: int): Grant -> int {
    (g: Grant) => if g.status == Active && now < g.expiresAt && 0 < g.remaining then g.remaining else 0
  }

  /** All that a user can spend at a moment. */
  function CanSpend(f: Funds, now: int): int {
    f.balance + SumOf(Spendable(now), f.grants)
  }

  /** All that wallet and grants hold, expired grants included. */
  function Worth(f: Funds): int {
    f.balance + SumOf(Remaining, f.grants)
  }

  function HeldBy(s: Split): int {
    s.wallet + SumAllocations(s.allocations)
  }

  /** Nothing but that active grants past their expiry are marked. */
  predicate OnlyMarksExpired(f: Funds, f': Funds, now: int) {
    && f'.balance == f.balance && |f'.grants| == |f.grants|
    && forall i | 0 <= i < |f.grants| ::
         f'.grants[i] == if f.grants[i].status == Active && f.grants[i].expiresAt <= now
                         then f.grants[i].(status := Expired) else f.grants[i]
  }

  lemma {:induction false} SpendableIsUsable(gs: seq<Grant>, now: int)
    ensures UsableCredit(gs, now) == SumOf(Spendable(now), gs)
  {
    if gs != [] {
      SpendableIsUsable(gs[1..], now);
      assert ExpireGrants(gs, now)[1..] == ExpireGrants(gs[1..], now);
    }
  }

  /** An allocation succeeds exactly when all that can be spent covers it, and takes exactly the amount;
      otherwise only expired grants are marked. */
  lemma AllocationTakes(u: User, amount: int, now: int)
    requires MoneyInv(u) && 0 <= amount
    ensures var (f, r) := Allocate(u.funds, amount, now);
            && (r.Ok? <==> amount <= CanSpend(u.funds, now))
            && (r.Ok? ==> Worth(f) == Worth(u.funds) - amount && HeldBy(r.value) == amount
                          && f.balance == u.funds.balance - r.value.wallet && 0 <= r.value.wallet)
            && (r.Err? ==> OnlyMarksExpired(u.funds, f, now))
  {
    BoundsMeansInBounds(u.funds, u.reservations, []);
    AllocateOutcome(u.funds, amount, now);
    AllocateKeeps(u.funds, u.reservations, amount, now);
    SpendableIsUsable(u.funds.grants, now);
  }

  // ---- Usage reports ----

  predicate Reportable(e: UsageEvent) {
    && 1 <= |e.idempotencyKey| <= 240 && e.inputTokens >= 0 && e.outputTokens >= 0 && e.costCents >= 0
    && (e.commissionRateBps == None || 0 <= e.commissionRateBps.value <= 10_000)
    && (e.commissionCents == None || e.commissionCents.value >= 0)
  }

  /** What a report comes to: as reported for an ordinary user, nothing for an administrator. */
  datatype Bill = Bill(cents: int, direction: string, rateBps: int, commission: int)

  function BillOf(admin: bool, e: UsageEvent): Bill {
    if admin then Bill(0, "管理员测试免计费", 0, 0)
    else Bill(e.costCents, e.paymentDirection,
              if e.commissionRateBps == None then 0 else e.commissionRateBps.value,
              if e.commissionCents == None then 0 else e.commissionCents.value)
  }

  /** The entry carries this bill, for the work of the report. */
  predicate Carries(entry: LedgerEntry, e: UsageEvent, b: Bill) {
    entry.kind == UsageCharge && entry.amount == -b.cents && entry.detail == WorkOf(e, b)
  }

  function WorkOf(e: UsageEvent, b: Bill): Detail {
    UsageDetail(e.task, e.sourceId, if e.upstreamSourceId == None then "ai-kai" else e.upstreamSourceId.value,
                e.model, b.direction, b.rateBps, b.commission)
  }

  /** The entry is posted in front of the ledger and remembered under the key of the report; its parts
      are what wallet and credit gave. */
  predicate Posts(u: User, u': User, e: UsageEvent, b: Bill, entry: LedgerEntry) {
    && Carries(entry, e, b) && entry.id == |u.ledger| && entry.wallet + entry.credit == -b.cents
    && u'.ledger == [entry] + u.ledger && u'.idempotency == u.idempotency[ClientKey(e.idempotencyKey) := entry]
  }

  /** Apart from funds, ledger, keys, reservations and chats the user is the same. */
  predicate SameElse(u: User, u': User) {
    u'.packKeys == u.packKeys && u'.orders == u.orders && u'.orderKeys == u.orderKeys && u'.board == u.board
  }

  lemma ReportIsRead(admin: bool, e: UsageEvent)
    ensures ValidEvent(e) <==> Reportable(e)
    ensures Billed(admin, e).costCents == BillOf(admin, e).cents
    ensures DetailOf(Billed(admin, e)) == WorkOf(e, BillOf(admin, e))
  {
  }

  /** Usage reported under a new key is charged exactly what it comes to, once that can be spent; the
      wallet gives what credit does not cover, and nothing else changes. */
  lemma NewUsageIsCharged(u: User, now: int, admin: bool, e: UsageEvent)
    requires MoneyInv(u) && Reportable(e) && ClientKey(e.idempotencyKey) !in u.idempotency
    ensures var (u', r) := RecordUsage(u, now, admin, e);
            var b := BillOf(admin, e);
            && (r.Ok? <==> b.cents <= CanSpend(u.funds, now))
            && (r.Ok? ==>
                  && Posts(u, u', e, b, r.value) && u'.funds.balance == u.funds.balance + r.value.wallet
                  && Worth(u'.funds) == Worth(u.funds) - b.cents
                  && SameElse(u, u') && u'.reservations == u.reservations && u'.chats == u.chats)
            && (r.Err? ==>
                  && r == Err(UsageError.InsufficientBalance)
                  && u' == u.(funds := u'.funds) && OnlyMarksExpired(u.funds, u'.funds, now))
  {
    ReportIsRead(admin, e);
    AllocationTakes(u, BillOf(admin, e).cents, now);
    RecordUsageCases(u, now, admin, e);
  }

  /** An ordinary user is charged the cost that is reported, with its direction and commission. */
  lemma OrdinaryUsageIsCharged(u: User, now: int, e: UsageEvent)
    requires MoneyInv(u) && Reportable(e) && ClientKey(e.idempotencyKey) !in u.idempotency
    ensures var (u', r) := RecordUsage(u, now, false, e);
            && (r.Ok? <==> e.costCents <= CanSpend(u.funds, now))
            && (r.Ok? ==>
                  && r.value.amount == -e.costCents && Worth(u'.funds) == Worth(u.funds) - e.costCents
                  && r.value.detail.UsageDetail? && r.value.detail.paymentDirection == e.paymentDirection
                  && (e.commissionRateBps.Some? ==> r.value.detail.commissionRateBps == e.commissionRateBps.value)
                  && (e.commissionCents.Some? ==> r.value.detail.commissionCents == e.commissionCents.value))
  {
    NewUsageIsCharged(u, now, false, e);
  }

  /** An administrator is never charged: no money moves, and the entry says so. */
  lemma AdminUsageIsFree(u: User, now: int, e: UsageEvent)
    requires MoneyInv(u) && Reportable(e) && ClientKey(e.idempotencyKey) !in u.idempotency
    ensures var (u', r) := RecordUsage(u, now, true, e);
            && r.Ok? && r.value.amount == 0 && Worth(u'.funds) == Worth(u.funds)
            && u'.funds.balance == u.funds.balance + r.value.wallet
            && r.value.detail.UsageDetail? && r.value.detail.paymentDirection == "管理员测试免计费"
            && r.value.detail.commissionRateBps == 0 && r.value.detail.commissionCents == 0
  {
    BoundsMeansInBounds(u.funds, u.reservations, []);
    SpendableNotNegative(u.funds.grants, now);
    NewUsageIsCharged(u, now, true, e);
  }

  lemma {:induction false} SpendableNotNegative(gs: seq<Grant>, now: int)
    ensures 0 <= SumOf(Spendable(now), gs)
  {
    if gs != [] {
      SpendableNotNegative(gs[1..], now);
    }
  }

  /** A report that is not valid, or comes again under its key, changes nothing: it is answered with the
      entry on record exactly when that carries the same bill. */
  lemma KnownUsageIsLookedUp(u: User, now: int, admin: bool, e: UsageEvent)
    requires !Reportable(e) || ClientKey(e.idempotencyKey) in u.idempotency
    ensures var (u', r) := RecordUsage(u, now, admin, e);
            u' == u
            && r == if !Reportable(e) then Err(InvalidRequest)
                    else if Carries(u.idempotency[ClientKey(e.idempotencyKey)], e, BillOf(admin, e)) then
                      Ok(u.idempotency[ClientKey(e.idempotencyKey)])
                    else Err(IdempotencyConflict)
  {
    ReportIsRead(admin, e);
  }

  // ---- Settlement ----

  predicate LiveHold(r: Option<Reservation>, now: int) {
    r.Some? && r.value.status == Reserved && now < r.value.leaseExpiresAt
  }

  /** The task is worked on under this execution, and its lease has not run out. */
  predicate Works(b: TaskBoard.Board, now: int, id: nat, executionId: nat) {
    && id < |b.tasks| && b.tasks[id].status in {TaskBoard.Running, TaskBoard.Waiting}
    && id in b.executions && b.executions[id].executionId == executionId && now < b.executions[id].leaseExpiresAt
  }

  /** The chat request that a completion is for. */
  function ChatFor(u: User, completion: Option<Completion>): Option<ChatRecord> {
    if completion.Some? then Get(u.chats, completion.value.requestKey) else None
  }

  /** The checks of a settlement, in the order in which they answer. Of a key that is in the books only
      the first seven count. */
  function SettleChecks(u: User, now: int, admin: bool, id: string, e: UsageEvent, completion: Option<Completion>,
                        executionId: Option<nat>): Checks<UsageError>
  {
    var r, chat, key := Get(u.reservations, id), ChatFor(u, completion), ClientKey(e.idempotencyKey);
    var isNew := key !in u.idempotency;
    Checks(None)
    .Then(!Reportable(e), InvalidRequest)
    .Then(completion.Some?
          && e.idempotencyKey != "chat:" + completion.value.requestKey + ":" + completion.value.fingerprint,
          ChatKeyMismatch)
    .Then(completion.Some? && completion.value.payloadBytes > 524_288, ChatResponseTooLarge)
    .Then(completion.Some?
          && !(chat.Some? && chat.value.fingerprint == completion.value.fingerprint
               && chat.value.executionId == completion.value.executionId), ChatNotClaimed)
    .Then(chat.Some? && chat.value.status == Failed, ChatNotPending)
    .Then(e.task.Some?
          && !(executionId.Some? && r.Some?
               && r.value.execution == Some(TaskExecution(e.task.value, executionId.value))), ReservationConflict)
    .Then(key in u.idempotency && !Carries(u.idempotency[key], e, BillOf(admin, e)), IdempotencyConflict)
    .Then(isNew && e.task.Some? && e.task.value >= |u.board.tasks|, TaskNotFound)
    .Then(isNew && e.task.Some? && executionId.Some? && !Works(u.board, now, e.task.value, executionId.value),
          TaskLeaseExpired)
    .Then(isNew && chat.Some? && chat.value.status == Complete, ChatBillingInconsistent)
    .Then(isNew && !LiveHold(r, now), ReservationLeaseExpired)
  }

  lemma ChecksAgree(u: User, now: int, admin: bool, id: string, e: UsageEvent, completion: Option<Completion>,
                    executionId: Option<nat>)
    ensures SettleRefusal(u, now, admin, id, e, completion, executionId)
            == SettleChecks(u, now, admin, id, e, completion, executionId).found
  {
    ReportIsRead(admin, e);
  }

  /** The chats after a settlement that was given a completion: the request is complete, with its answer,
      for a day. */
  predicate Completes(u: User, u': User, now: int, completion: Option<Completion>) {
    match completion
    case None => u'.chats == u.chats
    case Some(c) =>
      && u'.chats == Put(u.chats, c.requestKey, ChatRecord(c.fingerprint, c.executionId, Complete, Some(c.payload),
                                                          now + 86_400_000))
  }

  /** The reservation takes another status, and nothing else of it or of the others changes. */
  predicate Becomes(u: User, u': User, id: string, status: ReservationStatus) {
    var k := IndexOf(u.reservations, id);
    k < |u.reservations|
    && u'.reservations == u.reservations[k := Entry(id, u.reservations[k].value.(status := status))]
  }

  /** What a settlement under a new key that passes its checks comes to: the cost is charged to what the
      reservation holds and, beyond that, to what can be spent; what is held and not needed comes back. */
  predicate Settles(u: User, now: int, id: string, e: UsageEvent, b: Bill, completion: Option<Completion>, u': User,
                    r: Result<LedgerEntry, UsageError>)
    requires Has(u.reservations, id)
  {
    var held := u.reservations[IndexOf(u.reservations, id)].value.held;
    && (r.Ok? <==> b.cents <= HeldBy(held) + CanSpend(u.funds, now))
    && (r.Ok? ==>
          && Posts(u, u', e, b, r.value) && Becomes(u, u', id, Settled) && Completes(u, u', now, completion)
          && u'.funds.balance == u.funds.balance + held.wallet + r.value.wallet
          && Worth(u'.funds) == Worth(u.funds) + HeldBy(held) - b.cents && SameElse(u, u'))
    && (r.Err? ==>
          && r == Err(UsageError.InsufficientBalance)
          && u' == u.(funds := u'.funds) && OnlyMarksExpired(u.funds, u'.funds, now))
  }

  /** What a charge of held funds comes to. */
  predicate Takes(f: Funds, held: Split, cost: int, now: int, f': Funds, r: Result<Charge, FundsError>) {
    && (r.Ok? <==> cost <= HeldBy(held) + CanSpend(f, now))
    && (r.Ok? ==>
          && r.value.wallet + r.value.credit == cost
          && f'.balance == f.balance + held.wallet - r.value.wallet
          && Worth(f') == Worth(f) + HeldBy(held) - cost)
    && (r.Err? ==> OnlyMarksExpired(f, f', now))
  }

  /** What is left to allocate once the hold is used up. */
  lemma ChargeBeyond(f: Funds, held: Split, cost: int, now: int, f2: Funds, split: Result<Split, FundsError>)
    requires AfterHeld(f, held, cost, now) == f && 0 <= held.wallet && cost > HeldBy(held)
    requires Draws.Sum(Draws.Draw(Amounts(held.allocations), cost)) == SumAllocations(held.allocations)
    requires (f2, split) == Allocate(f, cost - HeldBy(held), now)
    ensures var (f', r) := ChargeHeld(f, held, cost, now);
            && f' == f2 && (r.Ok? <==> split.Ok?)
            && (r.Ok? ==> r.value == Charge(held.wallet + split.value.wallet,
                                            SumAllocations(held.allocations) + SumAllocations(split.value.allocations)))
  {
  }

  lemma ChargeWithin(f: Funds, held: Split, cost: int, now: int)
    requires 0 <= held.wallet && cost <= HeldBy(held)
    requires Draws.Sum(Draws.Draw(Amounts(held.allocations), cost)) == Min(cost, SumAllocations(held.allocations))
    ensures ChargeHeld(f, held, cost, now).1.Ok?
  {
  }

  lemma ChargeTakes(u: User, now: int, k: nat, cost: int, held: Split, f: Funds, r: Result<Charge, FundsError>)
    requires MoneyInv(u) && k < |u.reservations| && u.reservations[k].value.status == Reserved && 0 <= cost
    requires held == u.reservations[k].value.held && (f, r) == ChargeHeld(u.funds, held, cost, now)
    ensures Takes(u.funds, held, cost, now, f, r)
  {
    if cost > HeldBy(held) {
      BeyondTakes(u, now, k, cost, held, f, r);
    } else {
      WithinTakes(u, now, k, cost, held, f, r);
    }
  }

  lemma WithinTakes(u: User, now: int, k: nat, cost: int, held: Split, f: Funds, r: Result<Charge, FundsError>)
    requires MoneyInv(u) && k < |u.reservations| && u.reservations[k].value.status == Reserved
    requires held == u.reservations[k].value.held && 0 <= cost <= HeldBy(held)
    requires (f, r) == ChargeHeld(u.funds, held, cost, now)
    ensures Takes(u.funds, held, cost, now, f, r)
  {
    ChargeIsCharged(u, now, k, cost);
    ConsumedBounds(held, cost, |u.funds.grants|);
    SpendableNotNegative(u.funds.grants, now);
    ChargeWithin(u.funds, held, cost, now);
  }

  lemma BeyondTakes(u: User, now: int, k: nat, cost: int, held: Split, f: Funds, r: Result<Charge, FundsError>)
    requires MoneyInv(u) && k < |u.reservations| && u.reservations[k].value.status == Reserved
    requires held == u.reservations[k].value.held && 0 <= cost && HeldBy(held) < cost
    requires (f, r) == ChargeHeld(u.funds, held, cost, now)
    ensures Takes(u.funds, held, cost, now, f, r)
  {
    var rest := Allocate(u.funds, cost - HeldBy(held), now);
    HoldIsUsed(u, now, k, cost, held);
    ChargeBeyond(u.funds, held, cost, now, rest.0, rest.1);
    RestIsAllocated(u, cost - HeldBy(held), now, rest.0, rest.1);
    BeyondIsTaken(u.funds, held, cost, now, f, rest.1, r);
  }

  lemma HoldIsUsed(u: User, now: int, k: nat, cost: int, held: Split)
    requires MoneyInv(u) && k < |u.reservations| && u.reservations[k].value.status == Reserved
    requires held == u.reservations[k].value.held && 0 <= cost && HeldBy(held) < cost
    ensures AfterHeld(u.funds, held, cost, now) == u.funds && 0 <= held.wallet
    ensures Draws.Sum(Draws.Draw(Amounts(held.allocations), cost)) == SumAllocations(held.allocations)
  {
    ConsumedBounds(held, cost, |u.funds.grants|);
    UsedUp(u, k, cost, now);
  }

  lemma RestIsAllocated(u: User, amount: int, now: int, f: Funds, split: Result<Split, FundsError>)
    requires MoneyInv(u) && 0 <= amount && (f, split) == Allocate(u.funds, amount, now)
    ensures split.Ok? <==> amount <= CanSpend(u.funds, now)
    ensures split.Ok? ==> Worth(f) == Worth(u.funds) - amount && HeldBy(split.value) == amount
                          && f.balance == u.funds.balance - split.value.wallet
    ensures split.Err? ==> OnlyMarksExpired(u.funds, f, now)
  {
    AllocationTakes(u, amount, now);
  }

  lemma BeyondIsTaken(f: Funds, held: Split, cost: int, now: int, f': Funds, split: Result<Split, FundsError>,
                      r: Result<Charge, FundsError>)
    requires split.Ok? <==> cost - HeldBy(held) <= CanSpend(f, now)
    requires split.Ok? ==> Worth(f') == Worth(f) - (cost - HeldBy(held)) && HeldBy(split.value) == cost - HeldBy(held)
                           && f'.balance == f.balance - split.value.wallet
    requires split.Err? ==> OnlyMarksExpired(f, f', now)
    requires r.Ok? <==> split.Ok?
    requires r.Ok? ==> r.value == Charge(held.wallet + split.value.wallet,
                                         SumAllocations(held.allocations) + SumAllocations(split.value.allocations))
    ensures Takes(f, held, cost, now, f', r)
  {
  }

  /** A charge beyond the hold uses the whole of it up. */
  lemma UsedUp(u: User, k: nat, cost: int, now: int)
    requires MoneyInv(u) && k < |u.reservations| && u.reservations[k].value.status == Reserved
    requires 0 <= cost && HeldBy(u.reservations[k].value.held) < cost
    ensures AfterHeld(u.funds, u.reservations[k].value.held, cost, now) == u.funds
  {
    HoldOut(u.funds, u.reservations, k, Settled);
    AfterHeldKeeps(u.funds, SettledAt(u.reservations, k), u.reservations[k].value.held, cost, now);
  }

  lemma ChargedSettles(u: User, now: int, admin: bool, id: string, e: UsageEvent, completion: Option<Completion>)
    requires MoneyInv(u) && Reportable(e) && Has(u.reservations, id)
    requires u.reservations[IndexOf(u.reservations, id)].value.status == Reserved
    ensures var (u', r) := SettleCharge(u, now, IndexOf(u.reservations, id), e.idempotencyKey, Billed(admin, e),
                                        completion);
            Settles(u, now, id, e, BillOf(admin, e), completion, u', r)
  {
    var k := IndexOf(u.reservations, id);
    ReportIsRead(admin, e);
    var held, cost := u.reservations[k].value.held, BillOf(admin, e).cents;
    var charged := ChargeHeld(u.funds, held, cost, now);
    ChargeTakes(u, now, k, cost, held, charged.0, charged.1);
    ChargeReservationCases(u, now, k, e.idempotencyKey, Billed(admin, e));
  }

  /** A settlement that a check refuses changes nothing. Any other one under a new key charges exactly
      what the report comes to. */
  lemma NewSettlementCharges(u: User, now: int, admin: bool, id: string, e: UsageEvent, completion: Option<Completion>,
                             executionId: Option<nat>)
    requires MoneyInv(u)
    ensures var (u', r) := SettleUsage(u, now, admin, id, e, completion, executionId);
            var refused := SettleChecks(u, now, admin, id, e, completion, executionId).found;
            && (refused.Some? ==> u' == u && r == Err(refused.value))
            && (refused.None? && ClientKey(e.idempotencyKey) !in u.idempotency ==>
                  Has(u.reservations, id) && Settles(u, now, id, e, BillOf(admin, e), completion, u', r))
  {
    ChecksAgree(u, now, admin, id, e, completion, executionId);
    if SettleRefusal(u, now, admin, id, e, completion, executionId).None?
       && ClientKey(e.idempotencyKey) !in u.idempotency
    {
      AcceptedSettlement(u, now, admin, id, e, completion, executionId);
      ChargedSettles(u, now, admin, id, e, completion);
    }
  }

  /** An ordinary user settles for the cost that is reported, out of the hold and of what can be spent; an
      administrator settles for nothing and gets the whole hold back. */
  lemma SettlementCostsWhatIsReported(u: User, now: int, admin: bool, id: string, e: UsageEvent,
                                      completion: Option<Completion>, executionId: Option<nat>)
    requires MoneyInv(u) && ClientKey(e.idempotencyKey) !in u.idempotency
    requires SettleChecks(u, now, admin, id, e, completion, executionId).found.None?
    ensures Has(u.reservations, id)
    ensures var (u', r) := SettleUsage(u, now, admin, id, e, completion, executionId);
            var held := u.reservations[IndexOf(u.reservations, id)].value.held;
            && (!admin ==>
                  && (r.Ok? <==> e.costCents <= HeldBy(held) + CanSpend(u.funds, now))
                  && (r.Ok? ==>
                        && r.value.amount == -e.costCents && Carries(r.value, e, BillOf(false, e))
                        && Worth(u'.funds) == Worth(u.funds) + HeldBy(held) - e.costCents))
            && (admin && r.Ok? ==>
                  && r.value.amount == 0 && r.value.detail.UsageDetail?
                  && r.value.detail.paymentDirection == "管理员测试免计费"
                  && r.value.detail.commissionRateBps == 0 && r.value.detail.commissionCents == 0
                  && Worth(u'.funds) == Worth(u.funds) + HeldBy(held))
  {
    NewSettlementCharges(u, now, admin, id, e, completion, executionId);
  }

  /** Usage that is in the books is looked up: a reservation still held is given back, a chat request
      still pending is completed, and nothing is charged. */
  lemma KnownSettlementGivesBack(u: User, now: int, admin: bool, id: string, e: UsageEvent,
                                 completion: Option<Completion>, executionId: Option<nat>)
    requires MoneyInv(u) && ClientKey(e.idempotencyKey) in u.idempotency
    requires SettleChecks(u, now, admin, id, e, completion, executionId).found.None?
    ensures var (u', r) := SettleUsage(u, now, admin, id, e, completion, executionId);
            var hold, chat := Get(u.reservations, id), ChatFor(u, completion);
            && r == Ok(u.idempotency[ClientKey(e.idempotencyKey)])
            && u'.ledger == u.ledger && u'.idempotency == u.idempotency && SameElse(u, u')
            && (if hold.Some? && hold.value.status == Reserved then
                  && Becomes(u, u', id, Released) && u'.funds.balance == u.funds.balance + hold.value.held.wallet
                  && Worth(u'.funds) == Worth(u.funds) + HeldBy(hold.value.held)
                else u'.reservations == u.reservations && u'.funds == u.funds)
            && Completes(u, u', now, if chat.Some? && chat.value.status == Pending then completion else None)
  {
    ChecksAgree(u, now, admin, id, e, completion, executionId);
    AcceptedSettlement(u, now, admin, id, e, completion, executionId);
    ReleaseGivesBack(u, now, id);
    ReplayCompletes(u, now, id, completion);
  }

  lemma ReplayCompletes(u: User, now: int, id: string, completion: Option<Completion>)
    ensures var u', released, chat := SettleReplay(u, now, id, completion), ReleaseIfHeld(u, now, id),
                                      ChatFor(u, completion);
            && u' == released.(chats := u'.chats)
            && Completes(released, u', now, if chat.Some? && chat.value.status == Pending then completion else None)
            && released.chats == u.chats && released.ledger == u.ledger && released.idempotency == u.idempotency
  {
  }

  // ---- Reservations ----

  /** A reservation under a known id is confirmed only while it is live, and only to the execution it is
      for; it never changes anything. */
  lemma KnownReservationIsConfirmed(u: User, now: int, admin: bool, id: string, amountCents: int,
                                    execution: Option<TaskExecution>)
    requires Has(u.reservations, id)
    ensures var (u', r) := Reserve(u, now, admin, id, amountCents, execution);
            var hold := Get(u.reservations, id);
            u' == u
            && r == if hold.value.execution != execution then Err(ReservationConflict)
                    else if LiveHold(hold, now) then Ok(()) else Err(ReservationLeaseExpired)
  {
  }

  /** The grounds on which a new reservation is refused, in the order in which they answer. */
  function HoldChecks(u: User, now: int, amount: int, execution: Option<TaskExecution>): Checks<UsageError> {
    Checks(None)
    .Then(execution.Some? && execution.value.taskId >= |u.board.tasks|, UsageError.TaskNotFound)
    .Then(execution.Some? && !Works(u.board, now, execution.value.taskId, execution.value.executionId),
          TaskLeaseExpired)
    .Then(amount > CanSpend(u.funds, now), UsageError.InsufficientBalance)
  }

  /** The amount is taken out of the funds and held for 90 seconds under the id, for the execution. */
  predicate Holds(u: User, now: int, id: string, amount: int, execution: Option<TaskExecution>, u': User) {
    |u'.reservations| == |u.reservations| + 1
    && var hold := u'.reservations[|u.reservations|].value;
       && u' == u.(funds := u'.funds, reservations := u.reservations + [Entry(id, hold)])
       && hold == Reservation(amount, hold.held, execution, Reserved, now + 90_000)
       && HeldBy(hold.held) == amount && Worth(u'.funds) == Worth(u.funds) - amount
       && u'.funds.balance == u.funds.balance - hold.held.wallet
  }

  lemma ExecutionIsChecked(u: User, now: int, execution: Option<TaskExecution>)
    ensures (if execution.Some? then ExecutionRefusal(u, now, execution.value) else None)
            == Checks(None)
               .Then(execution.Some? && execution.value.taskId >= |u.board.tasks|, UsageError.TaskNotFound)
               .Then(execution.Some? && !Works(u.board, now, execution.value.taskId, execution.value.executionId),
                     TaskLeaseExpired).found
  {
  }

  lemma HoldIsRefused(u: User, now: int, admin: bool, id: string, amountCents: int, execution: Option<TaskExecution>)
    requires MoneyInv(u) && 0 <= amountCents && !Has(u.reservations, id)
    ensures var (u', r) := Reserve(u, now, admin, id, amountCents, execution);
            var refused := HoldChecks(u, now, if admin then 0 else amountCents, execution).found;
            && (r.Err? <==> refused.Some?) && (refused.Some? ==> r == Err(refused.value))
            && (refused.Some? ==>
                  if refused.value == UsageError.InsufficientBalance then
                    u' == u.(funds := u'.funds) && OnlyMarksExpired(u.funds, u'.funds, now)
                  else u' == u)
  {
    ExecutionIsChecked(u, now, execution);
    AllocationTakes(u, if admin then 0 else amountCents, now);
  }

  /** A new reservation takes the amount, nothing for an administrator, out of what can be spent; for a
      task only under an execution that works on it. */
  lemma NewReservationHolds(u: User, now: int, admin: bool, id: string, amountCents: int,
                            execution: Option<TaskExecution>)
    requires MoneyInv(u) && 0 <= amountCents && !Has(u.reservations, id)
    ensures var (u', r) := Reserve(u, now, admin, id, amountCents, execution);
            var amount := if admin then 0 else amountCents;
            && (r.Ok? <==> HoldChecks(u, now, amount, execution).found.None?)
            && (r.Ok? ==> Holds(u, now, id, amount, execution, u'))
  {
    HoldIsRefused(u, now, admin, id, amountCents, execution);
    if Reserve(u, now, admin, id, amountCents, execution).1.Ok? {
      AllocationTakes(u, if admin then 0 else amountCents, now);
      ReservedHold(u, now, admin, id, amountCents, execution);
    }
  }

  /** A live reservation is extended to 90 seconds from now, any other is not. */
  lemma RenewalAnswers(u: User, now: int, id: string)
    ensures var (u', r) := RenewReservation(u, now, id);
            var k := IndexOf(u.reservations, id);
            if LiveHold(Get(u.reservations, id), now) then
              && r == Ok(())
              && u' == u.(reservations := u.reservations[k := Entry(id, u.reservations[k].value.(
                                                                        leaseExpiresAt := now + 90_000))])
            else u' == u && r == Err(ReservationLeaseExpired)
  {
  }

  /** Releasing gives back what is still held, and does nothing otherwise. */
  lemma ReleaseGivesBack(u: User, now: int, id: string)
    requires MoneyInv(u)
    ensures var u', hold := ReleaseIfHeld(u, now, id), Get(u.reservations, id);
            if hold.Some? && hold.value.status == Reserved then
              && u' == u.(funds := u'.funds, reservations := u'.reservations) && Becomes(u, u', id, Released)
              && u'.funds.balance == u.funds.balance + hold.value.held.wallet
              && Worth(u'.funds) == Worth(u.funds) + HeldBy(hold.value.held)
            else u' == u
  {
    var k := IndexOf(u.reservations, id);
    if k < |u.reservations| && u.reservations[k].value.status == Reserved {
      ReleaseRefunds(u, k, now);
    }
  }

  /** Every grant gets back exactly what was held of it, and is active again unless it has run out; one
      of which nothing was held stays as it is. */
  lemma ReleaseRestoresEachGrant(u: User, now: int, id: string, i: nat)
    requires MoneyInv(u) && i < |u.funds.grants|
    requires var hold := Get(u.reservations, id); hold.Some? && hold.value.status == Reserved
    ensures var u', g := ReleaseIfHeld(u, now, id), u.funds.grants[i];
            var back := AmountFor(Get(u.reservations, id).value.held.allocations, i);
            && |u'.funds.grants| == |u.funds.grants| && 0 <= back
            && u'.funds.grants[i]
               == if back == 0 then g
                  else Grant(g.packId, g.original, g.remaining + back, g.expiresAt,
                             if g.expiresAt <= now then Expired else Active)
  {
    var k := IndexOf(u.reservations, id);
    ReleaseRefunds(u, k, now);
    HoldOut(u.funds, u.reservations, k, Released);
    AmountForNotNegative(u.reservations[k].value.held.allocations, i);
  }

  // ---- Top-up and packs ----

  /** A top-up under a new key adds exactly its amount to the wallet and posts it; under a known key the
      entry is returned exactly when it is that of the same top-up. */
  lemma TopUpAdds(u: User, request: TopupRequest)
    ensures var (u', r) := TopUp(u, request);
            var key, detail := ClientKey(request.key), Plain(request.channel + ":" + request.key);
            if !(1 <= |request.key| <= 200 && 100 <= request.amountCents <= 1_000_000
                 && request.channel in {"pilot", "wechat", "alipay"}) then
              u' == u && r == Err(InvalidRequest)
            else if key in u.idempotency then
              var known := u.idempotency[key];
              u' == u
              && r == if known == LedgerEntry(known.id, Topup, request.amountCents, request.amountCents, 0, detail)
                      then Ok(known) else Err(IdempotencyConflict)
            else
              var entry := LedgerEntry(|u.ledger|, Topup, request.amountCents, request.amountCents, 0, detail);
              r == Ok(entry)
              && u' == u.(funds := Funds(u.funds.balance + request.amountCents, u.funds.grants),
                          ledger := [entry] + u.ledger, idempotency := u.idempotency[key := entry])
  {
  }

  /** The packs on sale: id, name, price, credit. */
  predicate OnSale(id: string, name: string, price: int, credit: int) {
    || (id, name, price, credit) == ("starter", "COD 入门卡时包", 2_000, 2_000)
    || (id, name, price, credit) == ("standard", "COD 标准卡时包", 10_000, 10_400)
    || (id, name, price, credit) == ("pro", "COD 进阶卡时包", 20_000, 21_200)
    || (id, name, price, credit) == ("team", "COD 团队卡时包", 40_000, 43_600)
  }

  lemma FoundIsOnSale(id: string)
    ensures FindPack(CATALOG, id).None? ==> id !in {"starter", "standard", "pro", "team"}
    ensures var p := FindPack(CATALOG, id);
            p.Some? ==> p.value.id == id && OnSale(id, p.value.name, p.value.priceCents, p.value.creditCents)
  {
    assert CATALOG[1..][0] == CATALOG[1] && CATALOG[1..][1..][0] == CATALOG[2]
           && CATALOG[1..][1..][1..][0] == CATALOG[3];
    assert CATALOG[1..][1..][1..][1..] == [];
    var packs3 := CATALOG[1..][1..][1..];
    assert FindPack(packs3, id) == if CATALOG[3].id == id then Some(CATALOG[3]) else None;
    assert FindPack(CATALOG[1..][1..], id) == if CATALOG[2].id == id then Some(CATALOG[2]) else FindPack(packs3, id);
  }

  /** The price is paid and the grant issued, each with its entry; active grants that ran out are marked. */
  predicate Brings(u: User, now: int, packId: string, key: string, name: string, price: int, credit: int, u': User) {
    var paid := LedgerEntry(|u.ledger|, PackPurchase, -price, -price, 0, Plain(name));
    var granted := LedgerEntry(|u.ledger| + 1, CreditGrant, credit, 0, credit, Plain(name));
    var grant := Grant(packId, credit, credit, now + 15_552_000_000, Active);
    && u'.ledger == [granted, paid] + u.ledger && u'.packKeys == u.packKeys[key := |u.funds.grants|]
    && OnlyMarksExpired(Funds(u.funds.balance - price, u.funds.grants + [grant]), u'.funds, now)
    && u' == u.(funds := u'.funds, ledger := u'.ledger, packKeys := u'.packKeys)
  }

  lemma FoundBrings(u: User, now: int, pack: Pack, key: string)
    requires FindPack(CATALOG, pack.id) == Some(pack) && 1 <= |key| <= 200 && key !in u.packKeys
    ensures var (u', r) := PurchasePack(u, now, pack.id, key);
            if u.funds.balance < pack.priceCents then u' == u && r == Err(UsageError.InsufficientBalance)
            else r == Ok(|u.funds.grants|)
                 && Brings(u, now, pack.id, key, pack.name, pack.priceCents, pack.creditCents, u')
  {
  }

  /** Buying a pack takes exactly its price from the wallet, if the wallet has it, and brings a grant of
      exactly its credit for 180 days. */
  lemma PurchaseBrings(u: User, now: int, packId: string, key: string, name: string, price: int, credit: int)
    requires OnSale(packId, name, price, credit) && 1 <= |key| <= 200 && key !in u.packKeys
    ensures var (u', r) := PurchasePack(u, now, packId, key);
            if u.funds.balance < price then u' == u && r == Err(UsageError.InsufficientBalance)
            else r == Ok(|u.funds.grants|) && Brings(u, now, packId, key, name, price, credit, u')
  {
    FoundIsOnSale(packId);
    FoundBrings(u, now, FindPack(CATALOG, packId).value, key);
  }

  /** Under a known key the grant it bought is returned, unless it is of another pack; an unknown pack and
      a key of the wrong length are refused; none of these changes more than marks. */
  lemma PurchaseElse(u: User, now: int, packId: string, key: string)
    requires packId !in {"starter", "standard", "pro", "team"} || !(1 <= |key| <= 200) || key in u.packKeys
    ensures var (u', r) := PurchasePack(u, now, packId, key);
            var refused := Checks(None)
                .Then(packId !in {"starter", "standard", "pro", "team"}, CreditPackNotFound)
                .Then(!(1 <= |key| <= 200), InvalidRequest)
                .Then(key in u.packKeys && u.packKeys[key] < |u.funds.grants|
                      && u.funds.grants[u.packKeys[key]].packId != packId, IdempotencyConflict).found;
            && (refused.Some? ==> u' == u && r == Err(refused.value))
            && (refused.None? ==>
                  && r == Ok(u.packKeys[key])
                  && u' == u.(funds := u'.funds) && OnlyMarksExpired(u.funds, u'.funds, now))
  {
    FoundIsOnSale(packId);
  }

  /** A new user has the trial credit for 30 days and nothing else. */
  lemma NewUserHas(now: int)
    ensures var u := NewUser(now);
            && u.funds == Funds(0, [Grant("trial", 1_000, 1_000, now + 2_592_000_000, Active)])
            && |u.ledger| == 1 && u.ledger[0].kind == TrialCredit && u.ledger[0].amount == 1_000
            && u.ledger[0].wallet == 0 && u.ledger[0].credit == 1_000
            && u.idempotency == map[] && u.reservations == [] && u.chats == [] && u.orders == map[]
            && u.board.tasks == [] && u.board.executions == map[] && u.packKeys == map[] && u.orderKeys == map[]
  {
  }

  // ---- Chat requests ----

  /** A chat request is claimed exactly when there is none under its key, or the one there has failed and
      is the same; a claim is pending for an hour. While one is pending nobody else may run it, and a
      complete one is answered from its record. */
  lemma ChatIsClaimedOnce(u: User, now: int, requestKey: string, fingerprint: string, executionId: Option<nat>)
    ensures var (u', r) := ClaimChat(u, now, requestKey, fingerprint, executionId);
            var chat := Get(u.chats, requestKey);
            var same := chat.Some? && chat.value.fingerprint == fingerprint && chat.value.executionId == executionId;
            && (r == Ok(Claimed) <==> chat.None? || (same && chat.value.status == Failed))
            && (r == Ok(StillPending) <==> same && chat.value.status == Pending)
            && (r == Err(IdempotencyConflict) <==> chat.Some? && !same)
            && (same && chat.value.status == Complete ==>
                  r == match chat.value.payload case Some(p) => Ok(Done(p)) case None => Err(ChatCacheInvalid))
            && u' == if r == Ok(Claimed) then
                       u.(chats := Put(u.chats, requestKey,
                                       ChatRecord(fingerprint, executionId, Pending, None, now + 3_600_000)))
                     else u
  {
  }

  /** A chat request fails exactly while it is pending, the same, and not billed; it may be claimed again
      for an hour. */
  lemma ChatFailsOnlyUnbilled(u: User, now: int, requestKey: string, fingerprint: string, executionId: Option<nat>)
    ensures var u', chat := FailChat(u, now, requestKey, fingerprint, executionId), Get(u.chats, requestKey);
            var fails := chat.Some? && chat.value.fingerprint == fingerprint && chat.value.executionId == executionId
                         && chat.value.status == Pending
                         && ClientKey("chat:" + requestKey + ":" + fingerprint) !in u.idempotency;
            u' == if fails then
                    u.(chats := Put(u.chats, requestKey,
                                    ChatRecord(fingerprint, executionId, Failed, None, now + 3_600_000)))
                  else u
  {
  }

  function Unexpired(chats: Dict<ChatRecord>, now: int): Dict<ChatRecord> {
    if chats == [] then []
    else (if now < chats[0].value.expiresAt then [chats[0]] else []) + Unexpired(chats[1..], now)
  }

  /** A sweep drops the first expired records, up to its budget, and nothing else. */
  lemma {:induction false} SweepDropsExpired(chats: Dict<ChatRecord>, now: int, budget: nat) returns (p: nat)
    ensures var kept := SweepChats(chats, now, budget);
            && p <= |chats| && kept == Unexpired(chats[..p], now) + chats[p..]
            && |chats| - |kept| <= budget && (|chats| - |kept| < budget ==> p == |chats|)
  {
    if budget == 0 || chats == [] {
      p := 0;
      assert chats[..0] == [];
    } else {
      var q := SweepDropsExpired(chats[1..], now, if chats[0].value.expiresAt <= now then budget - 1 else budget);
      p := q + 1;
      assert chats[..p][1..] == chats[1..][..q] && chats[p..] == chats[1..][q..];
    }
  }

  // ---- Payment orders ----

  /** The order request is well formed. */
  predicate Orderable(r: OrderRequest) {
    1 <= |r.key| <= 200 && 100 <= r.amountCents <= 1_000_000 && r.channel in {"wechat", "alipay"}
  }

  /** An order request under a new key makes a pending order of exactly its amount and channel; under a
      known key it returns the order exactly when amount and channel are the same. */
  lemma OrderRequestAnswers(u: User, r: OrderRequest, id: nat)
    ensures var known := if r.key in u.orderKeys && u.orderKeys[r.key] in u.orders then Some(u.orderKeys[r.key])
                         else None;
            && (!Orderable(r) ==> KnownOrder(u, r) == Some(Err(InvalidRequest)))
            && (Orderable(r) && known.Some? ==>
                  KnownOrder(u, r)
                  == Some(if u.orders[known.value].amountCents == r.amountCents
                             && u.orders[known.value].channel == r.channel
                          then Ok(known.value) else Err(IdempotencyConflict)))
            && (Orderable(r) && known.None? ==>
                  && KnownOrder(u, r).None?
                  && AddOrder(u, id, r)
                     == u.(orders := u.orders[id := PaymentOrder(r.amountCents, "CNY", r.channel, OrderPending, None)],
                           orderKeys := u.orderKeys[r.key := id]))
  {
  }

  /** The provider reports exactly what was ordered. */
  predicate Agrees(o: PaymentOrder, event: PaymentEvent) {
    o.amountCents == event.amountCents && o.currency == event.currency && o.channel == event.channel
  }

  /** The order's amount comes into the wallet and is posted; the order is paid, bound to the payment. */
  predicate Credits(u: User, event: PaymentEvent, u': User, entry: LedgerEntry)
    requires event.order in u.orders
  {
    && entry == LedgerEntry(|u.ledger|, Topup, event.amountCents, event.amountCents, 0,
                            Plain(event.channel + ":" + event.providerPaymentId))
    && u' == u.(funds := Funds(u.funds.balance + event.amountCents, u.funds.grants),
                ledger := [entry] + u.ledger,
                idempotency := u.idempotency[PaymentOrderKey(event.order) := entry],
                orders := u.orders[event.order :=
                  u.orders[event.order].(status := Paid, providerPaymentId := Some(event.providerPaymentId))])
  }

  lemma PaymentAnswers(u: User, event: PaymentEvent)
    requires event.order in u.orders
    ensures var (u', r) := PayOrder(u, event);
            var o, key := u.orders[event.order], PaymentOrderKey(event.order);
            var refused := Checks(None)
                .Then(!Agrees(o, event), OrderMismatch)
                .Then(o.status == Paid && o.providerPaymentId != Some(event.providerPaymentId), ProviderConflict)
                .Then(o.status == Paid && key !in u.idempotency, PaymentLedgerMissing)
                .Then(o.status in {OrderFailed, OrderExpired, Refunded}, OrderNotPending).found;
            && (refused.Some? ==> u' == u && r == Err(refused.value))
            && (refused.None? && o.status == Paid ==> u' == u && r == Ok(u.idempotency[key]))
            && (refused.None? && o.status == OrderPending ==> r.Ok? && Credits(u, event, u', r.value))
  {
  }

  /** The event, or its payment, was used for another order before. */
  ghost predicate UsedElsewhere(db: Database, event: PaymentEvent) {
    || (event.providerEventId in db.providerEvents && db.providerEvents[event.providerEventId] != event.order)
    || exists i, order | 0 <= i < |db.users| && order in db.users[i].value.orders ::
         order != event.order && db.users[i].value.orders[order].providerPaymentId == Some(event.providerPaymentId)
  }

  /** A pending order is credited exactly when event and payment are not used elsewhere and the provider
      reports its amount, currency and channel; the one who ordered gets exactly that amount, the
      event is remembered, and nobody else is touched. Otherwise nothing changes. */
  lemma PaymentCreditsWhatWasOrdered(db: Database, event: PaymentEvent, i: nat)
    requires i < |db.users| && event.order in db.users[i].value.orders
    requires forall j | 0 <= j < i :: event.order !in db.users[j].value.orders
    requires db.users[i].value.orders[event.order].status == OrderPending
    ensures var (db', r) := CompletePaymentOrder(db, event);
            var u := db.users[i].value;
            && (r.Ok? <==> !UsedElsewhere(db, event) && Agrees(u.orders[event.order], event))
            && (r.Ok? ==>
                  && |db'.users| == |db.users| && Credits(u, event, db'.users[i].value, r.value)
                  && db'.users[i].value.funds.balance == u.funds.balance + event.amountCents
                  && db' == db.(users := db.users[i := Entry(db.users[i].key, db'.users[i].value)],
                                providerEvents := db.providerEvents[event.providerEventId := event.order]))
            && (r.Err? ==>
                  && db' == db
                  && r == Err(if UsedElsewhere(db, event) then ProviderReused else OrderMismatch))
  {
    BoundMeansUsed(db, event);
    PaymentAnswers(db.users[i].value, event);
    assert OwnerOf(db.users, event.order) == i;
  }

  lemma BoundMeansUsed(db: Database, event: PaymentEvent)
    ensures UsedElsewhere(db, event)
            <==> (event.providerEventId in db.providerEvents
                  && db.providerEvents[event.providerEventId] != event.order)
                 || ProviderBound(db.users, event)
  {
  }

  /** An event for an order that nobody has, or that is no longer pending, moves no money at all. */
  lemma OtherPaymentsMoveNothing(db: Database, event: PaymentEvent)
    requires forall i | 0 <= i < |db.users| ::
               event.order in db.users[i].value.orders ==> db.users[i].value.orders[event.order].status != OrderPending
    ensures CompletePaymentOrder(db, event).0 == db
    ensures (forall i | 0 <= i < |db.users| :: event.order !in db.users[i].value.orders) && !UsedElsewhere(db, event)
            ==> CompletePaymentOrder(db, event).1 == Err(OrderNotFound)
  {
    BoundMeansUsed(db, event);
    var i := OwnerOf(db.users, event.order);
    if i < |db.users| {
      PaymentAnswers(db.users[i].value, event);
    }
  }
}
