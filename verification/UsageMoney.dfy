/** Conservation: no operation on a user's state creates or loses money. */
module UsageMoney {
  import opened Common
  import opened JsMap
  import opened Funds
  import opened Usage
  import opened UsageFunds

  function WalletPart(e: LedgerEntry): int { e.wallet }

  function CreditPart(e: LedgerEntry): int { e.credit }

  /** What the wallet has and live reservations hold is what the ledger says went through the
      wallet, and the same for credit in grants, expired grants included. */
  ghost predicate Conserved(u: User) {
    && u.funds.balance + SumOf(HeldWallet, u.reservations) == SumOf(WalletPart, u.ledger)
    && SumOf(Remaining, u.funds.grants) + SumOf(HeldCredit, u.reservations) == SumOf(CreditPart, u.ledger)
    && forall e | e in u.ledger :: e.amount == e.wallet + e.credit
  }

  ghost predicate MoneyInv(u: User) {
    && Bounds(u.funds, u.reservations)
    && GoodReservations(u.reservations, |u.funds.grants|)
    && Conserved(u)
  }

  /** Two states with the same money. */
  predicate SameMoney(u: User, u': User) {
    u'.funds == u.funds && u'.reservations == u.reservations && u'.ledger == u.ledger
  }

  // ---- Posting entries ----

  /** One entry in front of the old ledger, with these amounts. */
  ghost predicate Posted(before: seq<LedgerEntry>, after: seq<LedgerEntry>, wallet: int, credit: int) {
    && after != [] && after[1..] == before
    && after[0].wallet == wallet && after[0].credit == credit && after[0].amount == wallet + credit
  }

  lemma PostIsPosted(u: User, kind: EntryKind, wallet: int, credit: int, detail: Detail)
    ensures Posted(u.ledger, Post(u, kind, wallet, credit, detail).ledger, wallet, credit)
  {
  }

  /** Money moved and an entry posted: conservation when the entry says what moved. */
  lemma PostConserves(u: User, u': User, wallet: int, credit: int)
    requires Conserved(u) && Posted(u.ledger, u'.ledger, wallet, credit)
    requires u'.funds.balance + SumOf(HeldWallet, u'.reservations)
             == u.funds.balance + SumOf(HeldWallet, u.reservations) + wallet
    requires SumOf(Remaining, u'.funds.grants) + SumOf(HeldCredit, u'.reservations)
             == SumOf(Remaining, u.funds.grants) + SumOf(HeldCredit, u.reservations) + credit
    ensures Conserved(u')
  {
    forall e | e in u'.ledger ensures e.amount == e.wallet + e.credit {
      assert e == u'.ledger[0] || e in u.ledger;
    }
  }

  // ---- New users, expiry, deposits, packs ----

  lemma NewUserMoney(now: int)
    ensures MoneyInv(NewUser(now))
  {
    var u := NewUser(now);
    assert SumOf(Remaining, u.funds.grants[1..]) == 0;
    assert SumOf(WalletPart, u.ledger[1..]) == 0 && SumOf(CreditPart, u.ledger[1..]) == 0;
  }

  lemma SummarizeMoney(u: User, now: int)
    requires MoneyInv(u)
    ensures MoneyInv(SummarizeCredit(u, now))
  {
    var u' := SummarizeCredit(u, now);
    SameRemaining(u.funds.grants, u'.funds.grants);
    forall i | 0 <= i < |u'.funds.grants|
      ensures 0 <= u'.funds.grants[i].remaining
      ensures u'.funds.grants[i].remaining + SumOf(HeldFor(i), u'.reservations)
              + AmountFor([], i) <= u'.funds.grants[i].original
    {
      assert u.funds.grants[i].remaining + SumOf(HeldFor(i), u.reservations)
             + AmountFor([], i) <= u.funds.grants[i].original;
    }
  }

  /** A payment into or out of the wallet, with its entry. */
  lemma WalletMoney(u: User, u': User, amount: int)
    requires MoneyInv(u) && 0 <= u.funds.balance + amount
    requires u'.funds == u.funds.(balance := u.funds.balance + amount) && u'.reservations == u.reservations
    requires Posted(u.ledger, u'.ledger, amount, 0)
    ensures MoneyInv(u')
  {
    PostConserves(u, u', amount, 0);
    assert Bounds(u'.funds, u'.reservations);
  }

  lemma TopUpMoney(u: User, r: TopupRequest)
    requires MoneyInv(u)
    ensures MoneyInv(TopUp(u, r).0)
  {
    if ValidTopup(r) && ClientKey(r.key) !in u.idempotency {
      PostIsPosted(u, Topup, r.amountCents, 0, Plain(r.channel + ":" + r.key));
      WalletMoney(u, TopUp(u, r).0, r.amountCents);
    }
  }

  lemma {:induction false} NothingHeldFor(rs: Dict<Reservation>, n: nat)
    requires forall k | 0 <= k < |rs| :: GoodReservation(rs[k].value, n)
    ensures SumOf(HeldFor(n), rs) == 0
  {
    if rs != [] {
      NothingHeldFor(rs[1..], n);
      AmountForNotNegative(rs[0].value.held.allocations, n);
    }
  }

  /** A grant issued in full, with its entry. */
  lemma GrantMoney(u: User, u': User, grant: Grant)
    requires MoneyInv(u) && 0 <= grant.remaining == grant.original
    requires u'.funds == u.funds.(grants := u.funds.grants + [grant]) && u'.reservations == u.reservations
    requires Posted(u.ledger, u'.ledger, 0, grant.original)
    ensures MoneyInv(u')
  {
    var n := |u.funds.grants|;
    SumOfAppend(Remaining, u.funds.grants, grant);
    PostConserves(u, u', 0, grant.original);
    NothingHeldFor(u.reservations, n);
    forall i | 0 <= i <= n
      ensures 0 <= u'.funds.grants[i].remaining
      ensures u'.funds.grants[i].remaining + SumOf(HeldFor(i), u.reservations)
              + AmountFor([], i) <= u'.funds.grants[i].original
    {
      if i < n {
        assert u.funds.grants[i].remaining + SumOf(HeldFor(i), u.reservations)
               + AmountFor([], i) <= u.funds.grants[i].original;
      }
    }
  }

  function NewGrant(pack: Pack, now: int): Grant {
    Grant(pack.id, pack.creditCents, pack.creditCents, now + 180 * DAY_MS, Active)
  }

  /** The state after paying for a pack, and after posting its grant. */
  function PaidFor(u: User, pack: Pack, key: string): User {
    Post(u.(funds := u.funds.(balance := u.funds.balance - pack.priceCents),
            packKeys := u.packKeys[key := |u.funds.grants|]),
         PackPurchase, -pack.priceCents, 0, Plain(pack.name))
  }

  function GrantedBy(paid: User, pack: Pack, now: int): User {
    Post(paid.(funds := paid.funds.(grants := paid.funds.grants + [NewGrant(pack, now)])),
         CreditGrant, 0, pack.creditCents, Plain(pack.name))
  }

  /** A purchase is refused, replayed, or pays for the pack and then posts its grant. */
  lemma PurchaseSteps(u: User, now: int, packId: string, key: string)
    ensures var found := FindPack(CATALOG, packId);
            var (u', r) := PurchasePack(u, now, packId, key);
            || u' == u || u' == SummarizeCredit(u, now)
            || (found.Some? && 0 <= found.value.priceCents <= u.funds.balance && 0 <= found.value.creditCents
                && r == Ok(|u.funds.grants|)
                && u' == SummarizeCredit(GrantedBy(PaidFor(u, found.value, key), found.value, now), now))
  {
    FindPackAmounts(CATALOG, packId);
    var found := FindPack(CATALOG, packId);
    if found.Some? {
      var paid := PaidFor(u, found.value, key);
      assert paid.funds.(grants := paid.funds.grants + [NewGrant(found.value, now)])
          == Funds(u.funds.balance - found.value.priceCents, u.funds.grants + [NewGrant(found.value, now)]);
    }
  }

  lemma {:induction false} FindPackAmounts(packs: seq<Pack>, id: string)
    requires forall p | p in packs :: 0 <= p.priceCents && 0 <= p.creditCents
    ensures FindPack(packs, id).Some? ==>
              0 <= FindPack(packs, id).value.priceCents && 0 <= FindPack(packs, id).value.creditCents
  {
    if packs != [] && packs[0].id != id {
      FindPackAmounts(packs[1..], id);
    }
  }

  lemma BuyMoney(u: User, now: int, pack: Pack, key: string)
    requires MoneyInv(u) && 0 <= pack.priceCents <= u.funds.balance && 0 <= pack.creditCents
    ensures MoneyInv(GrantedBy(PaidFor(u, pack, key), pack, now))
  {
    var paid := PaidFor(u, pack, key);
    PostIsPosted(u, PackPurchase, -pack.priceCents, 0, Plain(pack.name));
    WalletMoney(u, paid, -pack.priceCents);
    PostIsPosted(paid, CreditGrant, 0, pack.creditCents, Plain(pack.name));
    GrantMoney(paid, GrantedBy(paid, pack, now), NewGrant(pack, now));
  }

  lemma PurchasePackMoney(u: User, now: int, packId: string, key: string)
    requires MoneyInv(u)
    ensures MoneyInv(PurchasePack(u, now, packId, key).0)
  {
    var found := FindPack(CATALOG, packId);
    var u' := PurchasePack(u, now, packId, key).0;
    PurchaseSteps(u, now, packId, key);
    if u' == u {
    } else if u' == SummarizeCredit(u, now) {
      SummarizeMoney(u, now);
    } else {
      BuyMoney(u, now, found.value, key);
      SummarizeMoney(GrantedBy(PaidFor(u, found.value, key), found.value, now), now);
    }
  }

  // ---- Direct charges ----

  /** What recording usage under a new key does: it charges directly, or is refused. */
  lemma RecordUsageCases(u: User, now: int, admin: bool, e: UsageEvent)
    requires ValidEvent(e) && ClientKey(e.idempotencyKey) !in u.idempotency
    ensures var billed := Billed(admin, e);
            var (funds, r) := Allocate(u.funds, billed.costCents, now);
            var (u', result) := RecordUsage(u, now, admin, e);
            && 0 <= billed.costCents
            && (r.Err? ==> u' == u.(funds := funds) && result == Err(UsageError.InsufficientBalance))
            && (r.Ok? ==>
                  && u' == PostUnder(u, ClientKey(e.idempotencyKey), UsageCharge,
                                     -r.value.wallet, -SumAllocations(r.value.allocations),
                                       DetailOf(billed)).(funds := funds)
                  && result == Ok(u'.ledger[0]))
  {
  }

  lemma ChargeDirectMoney(u: User, now: int, cost: int, u': User, split: Split)
    requires MoneyInv(u) && 0 <= cost
    requires Allocate(u.funds, cost, now) == (u'.funds, Ok(split)) && u'.reservations == u.reservations
    requires Posted(u.ledger, u'.ledger, -split.wallet, -SumAllocations(split.allocations))
    ensures MoneyInv(u')
  {
    AllocateKeeps(u.funds, u.reservations, cost, now);
    PostConserves(u, u', -split.wallet, -SumAllocations(split.allocations));
  }

  /** A refused allocation only marks expired grants. */
  lemma RefusedAllocation(u: User, now: int, cost: int)
    requires MoneyInv(u) && 0 <= cost && Allocate(u.funds, cost, now).1.Err?
    ensures u.(funds := Allocate(u.funds, cost, now).0) == SummarizeCredit(u, now)
  {
    AllocateKeeps(u.funds, u.reservations, cost, now);
  }

  lemma RecordUsageMoney(u: User, now: int, admin: bool, e: UsageEvent)
    requires MoneyInv(u)
    ensures MoneyInv(RecordUsage(u, now, admin, e).0)
  {
    if ValidEvent(e) && ClientKey(e.idempotencyKey) !in u.idempotency {
      var billed := Billed(admin, e);
      var r := Allocate(u.funds, billed.costCents, now).1;
      RecordUsageCases(u, now, admin, e);
      if r.Ok? {
        PostIsPosted(u, UsageCharge, -r.value.wallet, -SumAllocations(r.value.allocations), DetailOf(billed));
        ChargeDirectMoney(u, now, billed.costCents, RecordUsage(u, now, admin, e).0, r.value);
      } else {
        RefusedAllocation(u, now, billed.costCents);
        SummarizeMoney(u, now);
      }
    }
  }

  // ---- Reservations ----

  /** What reserving under a new id does: nothing, a refused allocation, or a new hold. */
  lemma ReserveCases(u: User, now: int, admin: bool, id: string, amountCents: int, execution: Option<TaskExecution>)
    ensures var amount := if admin then 0 else amountCents;
            var (funds, split) := Allocate(u.funds, amount, now);
            var (u', r) := Reserve(u, now, admin, id, amountCents, execution);
            || u' == u
            || (split.Err? && u' == u.(funds := funds))
            || (split.Ok? && IndexOf(u.reservations, id) == |u.reservations|
                && u' == u.(funds := funds, reservations := Put(u.reservations, id,
                     Reservation(amount, split.value, execution, Reserved, now + USAGE_RESERVATION_LEASE_DURATION_MS))))
  {
  }

  lemma HoldMoney(u: User, now: int, id: string, r: Reservation, u': User)
    requires MoneyInv(u) && 0 <= r.amountCents && r.status == Reserved
             && IndexOf(u.reservations, id) == |u.reservations|
    requires Allocate(u.funds, r.amountCents, now) == (u'.funds, Ok(r.held))
    requires u' == u.(funds := u'.funds, reservations := Put(u.reservations, id, r))
    ensures MoneyInv(u')
  {
    AllocateKeeps(u.funds, u.reservations, r.amountCents, now);
    HoldIn(u'.funds, u.reservations, id, r);
  }

  lemma ReserveMoney(u: User, now: int, admin: bool, id: string, amountCents: int, execution: Option<TaskExecution>)
    requires MoneyInv(u) && 0 <= amountCents
    ensures MoneyInv(Reserve(u, now, admin, id, amountCents, execution).0)
  {
    var amount := if admin then 0 else amountCents;
    var split := Allocate(u.funds, amount, now).1;
    var u' := Reserve(u, now, admin, id, amountCents, execution).0;
    ReserveCases(u, now, admin, id, amountCents, execution);
    if u' == u {
    } else if split.Err? {
      RefusedAllocation(u, now, amount);
      SummarizeMoney(u, now);
    } else {
      HoldMoney(u, now, id,
                Reservation(amount, split.value, execution, Reserved, now + USAGE_RESERVATION_LEASE_DURATION_MS), u');
    }
  }

  lemma RenewMoney(u: User, now: int, id: string)
    requires MoneyInv(u)
    ensures MoneyInv(RenewReservation(u, now, id).0)
  {
    var k := IndexOf(u.reservations, id);
    var u' := RenewReservation(u, now, id).0;
    if u' != u {
      var e := u'.reservations[k];
      SumOfUpdate(HeldWallet, u.reservations, k, e);
      SumOfUpdate(HeldCredit, u.reservations, k, e);
      forall i | 0 <= i < |u.funds.grants|
        ensures SumOf(HeldFor(i), u'.reservations) == SumOf(HeldFor(i), u.reservations)
      {
        SumOfUpdate(HeldFor(i), u.reservations, k, e);
      }
    }
  }

  lemma ReleaseMoney(u: User, k: nat, now: int)
    requires MoneyInv(u) && k < |u.reservations| && u.reservations[k].value.status == Reserved
    ensures MoneyInv(Release(u, k, now))
  {
    HoldOut(u.funds, u.reservations, k, Released);
    RestoreKeeps(u.funds, Release(u, k, now).reservations, u.reservations[k].value.held.allocations, now);
  }

  lemma ReleaseIfHeldMoney(u: User, now: int, id: string)
    requires MoneyInv(u)
    ensures MoneyInv(ReleaseIfHeld(u, now, id))
  {
    var k := IndexOf(u.reservations, id);
    if k < |u.reservations| && u.reservations[k].value.status == Reserved {
      ReleaseMoney(u, k, now);
    }
  }

  // ---- Settlement ----

  function SettledAt(rs: Dict<Reservation>, k: nat): Dict<Reservation>
    requires k < |rs|
  {
    rs[k := Entry(rs[k].key, rs[k].value.(status := Settled))]
  }

  /** What charging a reservation does: it posts and settles, or is refused. */
  lemma ChargeReservationCases(u: User, now: int, k: nat, key: string, billed: UsageEvent)
    requires k < |u.reservations|
    ensures var (funds, charged) := ChargeHeld(u.funds, u.reservations[k].value.held, billed.costCents, now);
            var (u', r) := ChargeReservation(u, now, k, key, billed);
            && (charged.Err? ==> u' == u.(funds := funds) && r == Err(UsageError.InsufficientBalance))
            && (charged.Ok? ==>
                  && u' == PostUnder(u, ClientKey(key), UsageCharge, -charged.value.wallet, -charged.value.credit,
                                     DetailOf(billed))
                           .(funds := funds, reservations := SettledAt(u.reservations, k))
                  && r == Ok(u'.ledger[0]))
  {
  }

  lemma ChargeHeldMoney(u: User, now: int, k: nat, u': User, wallet: int, credit: int)
    requires MoneyInv(u) && k < |u.reservations| && u.reservations[k].value.status == Reserved
    requires u'.reservations == SettledAt(u.reservations, k) && Posted(u.ledger, u'.ledger, -wallet, -credit)
    requires Charged(u.funds, u'.reservations, u.reservations[k].value.held, wallet + credit, now, u'.funds,
                     Ok(Charge(wallet, credit)))
    ensures MoneyInv(u')
  {
    HoldOut(u.funds, u.reservations, k, Settled);
    PostConserves(u, u', -wallet, -credit);
  }

  lemma ChargeIsCharged(u: User, now: int, k: nat, cost: int)
    requires MoneyInv(u) && k < |u.reservations| && u.reservations[k].value.status == Reserved && 0 <= cost
    ensures var held := u.reservations[k].value.held;
            Charged(u.funds, SettledAt(u.reservations, k), held, cost, now, ChargeHeld(u.funds, held, cost, now).0,
                    ChargeHeld(u.funds, held, cost, now).1)
  {
    HoldOut(u.funds, u.reservations, k, Settled);
    ChargeKeeps(u.funds, SettledAt(u.reservations, k), u.reservations[k].value.held, cost, now);
  }

  lemma ChargeHeldOutcome(u: User, now: int, k: nat, cost: int)
    requires MoneyInv(u) && k < |u.reservations| && u.reservations[k].value.status == Reserved && 0 <= cost
    ensures var (funds, r) := ChargeHeld(u.funds, u.reservations[k].value.held, cost, now);
            && (r.Err? ==> u.(funds := funds) == SummarizeCredit(u, now))
            && (r.Ok? ==> r.value.wallet + r.value.credit == cost)
  {
    ChargeIsCharged(u, now, k, cost);
  }

  lemma ChargeReservationMoney(u: User, now: int, k: nat, key: string, billed: UsageEvent)
    requires MoneyInv(u) && k < |u.reservations| && u.reservations[k].value.status == Reserved && 0 <= billed.costCents
    ensures var (u', r) := ChargeReservation(u, now, k, key, billed);
            MoneyInv(u') && (r.Err? ==> u' == SummarizeCredit(u, now))
  {
    var charged := ChargeHeld(u.funds, u.reservations[k].value.held, billed.costCents, now).1;
    ChargeReservationCases(u, now, k, key, billed);
    ChargeHeldOutcome(u, now, k, billed.costCents);
    if charged.Ok? {
      PostIsPosted(u, UsageCharge, -charged.value.wallet, -charged.value.credit, DetailOf(billed));
      ChargeIsCharged(u, now, k, billed.costCents);
      ChargeHeldMoney(u, now, k, ChargeReservation(u, now, k, key, billed).0, charged.value.wallet,
                      charged.value.credit);
    } else {
      SummarizeMoney(u, now);
    }
  }

  /** What a settlement that is not refused may rely on. */
  lemma SettleAccepted(u: User, now: int, admin: bool, id: string, e: UsageEvent, completion: Option<Completion>,
                       executionId: Option<nat>)
    requires SettleRefusal(u, now, admin, id, e, completion, executionId).None?
    ensures 0 <= Billed(admin, e).costCents
    ensures completion.Some? ==> e.idempotencyKey == ChatKey(completion.value.requestKey, completion.value.fingerprint)
    ensures ClientKey(e.idempotencyKey) !in u.idempotency ==>
              var k := IndexOf(u.reservations, id);
              && k < |u.reservations| && u.reservations[k].value.status == Reserved
              && now < u.reservations[k].value.leaseExpiresAt
              && (e.task.Some? ==> executionId.Some?
                                   && ExecutionRefusal(u, now, TaskExecution(e.task.value, executionId.value)).None?)
  {
  }

  lemma SettleReplayMoney(u: User, now: int, id: string, completion: Option<Completion>)
    requires MoneyInv(u)
    ensures MoneyInv(SettleReplay(u, now, id, completion))
  {
    ReleaseIfHeldMoney(u, now, id);
    assert SameMoney(ReleaseIfHeld(u, now, id), SettleReplay(u, now, id, completion));
  }

  lemma SettleChargeMoney(u: User, now: int, k: nat, key: string, billed: UsageEvent, completion: Option<Completion>)
    requires MoneyInv(u) && k < |u.reservations| && u.reservations[k].value.status == Reserved && 0 <= billed.costCents
    ensures MoneyInv(SettleCharge(u, now, k, key, billed, completion).0)
  {
    ChargeReservationMoney(u, now, k, key, billed);
    assert SameMoney(ChargeReservation(u, now, k, key, billed).0, SettleCharge(u, now, k, key, billed, completion).0);
  }

  lemma SettleUsageMoney(u: User, now: int, admin: bool, id: string, e: UsageEvent, completion: Option<Completion>,
                         executionId: Option<nat>)
    requires MoneyInv(u)
    ensures MoneyInv(SettleUsage(u, now, admin, id, e, completion, executionId).0)
  {
    if SettleRefusal(u, now, admin, id, e, completion, executionId).None? {
      SettleAccepted(u, now, admin, id, e, completion, executionId);
      if ClientKey(e.idempotencyKey) in u.idempotency {
        SettleReplayMoney(u, now, id, completion);
      } else {
        SettleChargeMoney(u, now, IndexOf(u.reservations, id), e.idempotencyKey, Billed(admin, e), completion);
      }
    }
  }

  // ---- Payments, and every step ----

  lemma PayOrderMoney(u: User, event: PaymentEvent)
    requires MoneyInv(u) && event.order in u.orders && 0 <= u.orders[event.order].amountCents
    ensures MoneyInv(PayOrder(u, event).0)
  {
    var u' := PayOrder(u, event).0;
    if u' != u {
      var amount := u.orders[event.order].amountCents;
      PostIsPosted(u, Topup, amount, 0, Plain(event.channel + ":" + event.providerPaymentId));
      WalletMoney(u, u', amount);
    }
  }

  lemma UserStepMoney(u: User, now: int, admin: bool, op: UserOp)
    requires MoneyInv(u)
    ensures MoneyInv(UserStep(u, now, admin, op))
  {
    match op
    case TopUpOp(request) => TopUpMoney(u, request);
    case PurchasePackOp(packId, key) => PurchasePackMoney(u, now, packId, key);
    case SummaryOp => SummarizeMoney(u, now);
    case RecordOp(e) => RecordUsageMoney(u, now, admin, e);
    case RenewReservationOp(id) => RenewMoney(u, now, id);
    case SettleOp(id, e, completion, executionId) => SettleUsageMoney(u, now, admin, id, e, completion, executionId);
    case ReleaseOp(id) => ReleaseIfHeldMoney(u, now, id);
    case FailChatOp(_, _, _) => assert SameMoney(u, UserStep(u, now, admin, op));
    case BoardOp(_) => assert SameMoney(u, UserStep(u, now, admin, op));
  }
}
