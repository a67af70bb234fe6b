/** One user's prepaid-usage state as an object that its operations change in place. Every method
    does to the object what the operation of the usage engine does to a user. */
module UserState {
  import opened Common
  import opened JsMap
  import opened Draws
  import opened Funds
  import F = Funds
  import Usage
  import TaskBoard
  import TaskStore

  // ---- Facts the loops rest on ----

  lemma {:induction false} DebitAllAppend(gs: seq<Grant>, a: seq<Allocation>, x: Allocation)
    requires x.grantId < |gs|
    ensures DebitAll(gs, a + [x]) == var r := DebitAll(gs, a); r[x.grantId := Debit(r[x.grantId], x.amount)]
    decreases a
  {
    if a == [] {
      assert a + [x] == [x] && [x][1..] == [];
    } else {
      assert (a + [x])[1..] == a[1..] + [x];
      var gs' := if a[0].grantId < |gs| then gs[a[0].grantId := Debit(gs[a[0].grantId], a[0].amount)] else gs;
      DebitAllAppend(gs', a[1..], x);
    }
  }

  lemma {:induction false} NothingLeft(order: seq<nat>, pots: seq<int>, amount: int)
    requires |order| == |pots| && amount <= 0 && forall k | 0 <= k < |pots| :: 0 <= pots[k]
    ensures Allocations(order, Draw(pots, amount)) == []
  {
    if order != [] {
      NothingLeft(order[1..], pots[1..], amount - Min(pots[0], amount));
    }
  }

  /** What the pots from one on give of what is still missing. */
  ghost function Rest(gs: seq<Grant>, order: seq<nat>, k: nat, missing: int): seq<Allocation>
    requires Indices(gs, order) && k <= |order|
  {
    Allocations(order[k..], Draw(Pots(gs, order)[k..], missing))
  }

  lemma RestStep(gs: seq<Grant>, order: seq<nat>, k: nat, missing: int)
    requires Indices(gs, order) && k < |order| && missing > 0 && gs[order[k]].remaining > 0
    ensures var take := Min(gs[order[k]].remaining, missing);
            Rest(gs, order, k, missing) == [Allocation(order[k], take)] + Rest(gs, order, k + 1, missing - take)
  {
    var pots := Pots(gs, order)[k..];
    assert pots[1..] == Pots(gs, order)[k + 1..] && order[k..][1..] == order[k + 1..];
  }

  lemma RestWhole(gs: seq<Grant>, amount: int)
    ensures Rest(gs, Order(gs), 0, amount) == GrantDraws(gs, amount)
  {
    assert Order(gs)[0..] == Order(gs) && Pots(gs, Order(gs))[0..] == Pots(gs, Order(gs));
  }

  lemma RestNothing(gs: seq<Grant>, order: seq<nat>, k: nat, missing: int)
    requires Indices(gs, order) && k <= |order|
    requires forall i | 0 <= i < |order| :: 0 < gs[order[i]].remaining
    requires missing <= 0 || k == |order|
    ensures Rest(gs, order, k, missing) == []
  {
    if k < |order| {
      NothingLeft(order[k..], Pots(gs, order)[k..], missing);
    }
  }

  /** What a pot gives, once the pots before it have given. */
  lemma {:induction false} DrawAt(pots: seq<int>, amount: int, i: nat)
    requires i < |pots|
    ensures Draw(pots, amount)[i] == Min(pots[i], amount - Sum(Draw(pots, amount)[..i]))
  {
    if i > 0 {
      var first := Min(pots[0], amount);
      DrawAt(pots[1..], amount - first, i - 1);
      assert Draw(pots, amount)[..i] == [first] + Draw(pots[1..], amount - first)[..i - 1];
      SumOfConcat(Itself, [first], Draw(pots[1..], amount - first)[..i - 1]);
    }
  }

  lemma {:induction false} RestoreAllAppend(gs: seq<Grant>, a: seq<Allocation>, x: Allocation, now: int)
    ensures RestoreAll(gs, a + [x], now) == F.RestoreGrant(RestoreAll(gs, a, now), x.grantId, x.amount, now)
    decreases |a|
  {
    if a == [] {
      assert a + [x] == [x] && [x][1..] == [];
    } else {
      assert (a + [x])[1..] == a[1..] + [x];
      RestoreAllAppend(F.RestoreGrant(gs, a[0].grantId, a[0].amount, now), a[1..], x, now);
    }
  }

  /** Charging one more held allocation and giving the rest of it back. */
  lemma ConsumingStep(gs: seq<Grant>, held: seq<Allocation>, cost: int, now: int, taken: seq<int>,
                      back: seq<Allocation>, i: nat)
    requires taken == Draw(Amounts(held), cost) && back == Refunds(held, taken) && i < |held|
    ensures |taken| == |back| == |held|
    ensures taken[i] == Min(held[i].amount, cost - Sum(taken[..i]))
    ensures Sum(taken[..i + 1]) == Sum(taken[..i]) + taken[i]
    ensures RestoreAll(gs, back[..i + 1], now)
            == F.RestoreGrant(RestoreAll(gs, back[..i], now), held[i].grantId, held[i].amount - taken[i], now)
  {
    DrawAt(Amounts(held), cost, i);
    SumLast(taken, i + 1);
    assert back[..i + 1] == back[..i] + [back[i]];
    RestoreAllAppend(gs, back[..i], back[i], now);
  }

  /** A draw under way: what is taken and what is still to come make up the whole draw. */
  ghost predicate Drawing(gs: seq<Grant>, order: seq<nat>, amount: int, cur: seq<Grant>, a: seq<Allocation>,
                          missing: int, k: nat)
  {
    && Indices(gs, order) && k <= |order| && DistinctIndices(order)
    && (forall i | 0 <= i < |order| :: 0 < gs[order[i]].remaining)
    && cur == DebitAll(gs, a) && missing == amount - SumAllocations(a)
    && a + Rest(gs, order, k, missing) == GrantDraws(gs, amount)
    && Untouched(gs, order, cur, k)
  }

  ghost predicate Untouched(gs: seq<Grant>, order: seq<nat>, cur: seq<Grant>, k: nat)
    requires Indices(gs, order)
  {
    |cur| == |gs| && forall j | k <= j < |order| :: cur[order[j]] == gs[order[j]]
  }

  lemma OrderPositive(gs: seq<Grant>, order: seq<nat>)
    requires order == Order(gs)
    ensures Indices(gs, order) && forall i | 0 <= i < |order| :: 0 < gs[order[i]].remaining
  {
    forall i | 0 <= i < |order| ensures 0 < gs[order[i]].remaining {
      OrderAt(gs, i);
    }
  }

  lemma OrderDistinct(gs: seq<Grant>, order: seq<nat>)
    requires order == Order(gs)
    ensures DistinctIndices(order)
  {
    OrderUpToSorted(gs, |gs|);
  }

  lemma DrawingStart(gs: seq<Grant>, order: seq<nat>, amount: int, whole: seq<Allocation>)
    requires Indices(gs, order) && DistinctIndices(order) && forall i | 0 <= i < |order| :: 0 < gs[order[i]].remaining
    requires whole == GrantDraws(gs, amount) == Rest(gs, order, 0, amount)
    ensures Drawing(gs, order, amount, gs, [], amount, 0)
  {
    assert [] + whole == whole;
  }

  lemma DrawingEnd(gs: seq<Grant>, order: seq<nat>, amount: int, cur: seq<Grant>, a: seq<Allocation>, missing: int,
                   k: nat)
    requires Drawing(gs, order, amount, cur, a, missing, k) && (k == |order| || missing <= 0)
    ensures a == GrantDraws(gs, amount) && missing == amount - SumAllocations(a) && cur == DebitAll(gs, a)
  {
    RestNothing(gs, order, k, missing);
    assert a + [] == a;
  }

  lemma DrawingInRange(gs: seq<Grant>, order: seq<nat>, amount: int, cur: seq<Grant>, a: seq<Allocation>, missing: int,
                       k: nat)
    requires Drawing(gs, order, amount, cur, a, missing, k) && k < |order|
    ensures order[k] < |cur|
  {
  }

  lemma DrawingStep(gs: seq<Grant>, order: seq<nat>, amount: int, cur: seq<Grant>, a: seq<Allocation>, missing: int,
                    k: nat)
    requires Drawing(gs, order, amount, cur, a, missing, k) && k < |order| && missing > 0
    ensures var taken := Min(cur[order[k]].remaining, missing);
            Drawing(gs, order, amount, cur[order[k] := Debit(cur[order[k]], taken)], a + [Allocation(order[k], taken)],
                    missing - taken, k + 1)
  {
    var x := Allocation(order[k], Min(cur[order[k]].remaining, missing));
    RestStep(gs, order, k, missing);
    DebitAllAppend(gs, a, x);
    SumOfAppend(AllocationAmount, a, x);
    assert a + Rest(gs, order, k, missing) == (a + [x]) + Rest(gs, order, k + 1, missing - x.amount);
  }

  /** Allocating what is missing, on top of what was taken before. */
  ghost function Overrun(f: Funds, missing: int, now: int, wallet: int, credit: int)
    : (Funds, Result<Charge, FundsError>)
  {
    var (f', extra) := Allocate(f, missing, now);
    (f', match extra
         case Ok(split) => Ok(Charge(wallet + split.wallet, credit + SumAllocations(split.allocations)))
         case Err(e) => Err(e))
  }

  /** Charging a hold: what is left of it is given back, and what is missing allocated. */
  lemma ChargeHeldIs(f: Funds, held: Split, cost: int, now: int, credit: int, wallet: int, f1: Funds, f': Funds,
                     r: Result<Charge, FundsError>)
    requires var taken := Draw(Amounts(held.allocations), cost);
             && credit == Sum(taken) && wallet == Min(held.wallet, cost - credit)
             && f1 == Funds(f.balance + held.wallet - wallet,
                            RestoreAll(f.grants, Refunds(held.allocations, taken), now))
    requires (f', r) == if cost - credit - wallet > 0 then Overrun(f1, cost - credit - wallet, now, wallet, credit)
                        else (f1, Ok(Charge(wallet, credit)))
    ensures F.ChargeHeld(f, held, cost, now) == (f', r)
  {
  }

  /** Charging a reservation: what charging its hold leaves, and the entry for it. */
  lemma ChargeIs(u: Usage.User, now: int, k: nat, key: string, billed: Usage.UsageEvent, funds: Funds,
                 charged: Result<Charge, FundsError>, u': Usage.User, r: Result<Usage.LedgerEntry, Usage.UsageError>)
    requires k < |u.reservations|
    requires (funds, charged) == F.ChargeHeld(u.funds, u.reservations[k].value.held, billed.costCents, now)
    requires charged.Err? ==> u' == u.(funds := funds) && r == Err(Usage.UsageError.InsufficientBalance)
    requires charged.Ok? ==>
               var posted := Usage.PostUnder(u.(funds := funds), Usage.ClientKey(key), Usage.UsageCharge,
                                             -charged.value.wallet, -charged.value.credit, Usage.DetailOf(billed));
               && u' == Usage.SetReservation(posted, k, u.reservations[k].value.(status := Usage.Settled))
               && r == Ok(posted.ledger[0])
    ensures Usage.ChargeReservation(u, now, k, key, billed) == (u', r)
  {
  }

  class State {
    var balance: int
    var grants: seq<Grant>
    var ledger: seq<Usage.LedgerEntry>
    var idempotency: map<Usage.LedgerKey, Usage.LedgerEntry>
    var reservations: Dict<Usage.Reservation>
    var chats: Dict<Usage.ChatRecord>
    var packKeys: map<string, nat>
    var orders: map<nat, Usage.PaymentOrder>
    var orderKeys: map<string, nat>
    var board: TaskBoard.Board

    ghost function View(): Usage.User
      reads this
    {
      Usage.User(Funds(balance, grants), ledger, idempotency, reservations, chats, packKeys, orders, orderKeys, board)
    }

    constructor (now: int)
      ensures View() == Usage.NewUser(now)
    {
      balance := 0;
      grants := [Grant("trial", Usage.TRIAL_CENTS, Usage.TRIAL_CENTS, now + 30 * Usage.DAY_MS, Active)];
      ledger := [Usage.LedgerEntry(0, Usage.TrialCredit, Usage.TRIAL_CENTS, 0, Usage.TRIAL_CENTS,
                                   Usage.Plain("新用户试用金"))];
      idempotency, reservations, chats, packKeys, orders, orderKeys := map[], [], [], map[], map[], map[];
      board := TaskBoard.EmptyBoard;
    }

    // ---- Funds ----

    method ExpireGrants(now: int)
      modifies this`grants
      ensures grants == F.ExpireGrants(old(grants), now)
    {
      for i := 0 to |grants|
        invariant |grants| == |old(grants)|
        invariant forall j | 0 <= j < |grants| :: grants[j] == if j < i then ExpireGrant(old(grants)[j], now)
                  else old(grants)[j]
      {
        if grants[i].status == Active && grants[i].expiresAt <= now {
          grants := grants[i := grants[i].(status := Expired)];
        }
      }
    }

    method RestoreGrant(grantId: nat, amount: int, now: int)
      modifies this`grants
      ensures grants == F.RestoreGrant(old(grants), grantId, amount, now)
    {
      if amount <= 0 || grantId >= |grants| {
        return;
      }
      var grant := grants[grantId];
      var remaining := Min(grant.original, grant.remaining + amount);
      grants := grants[grantId := grant.(remaining := remaining, status := if grant.expiresAt <= now then Expired
                                         else Active)];
    }

    method RestoreGrants(allocations: seq<Allocation>, now: int)
      modifies this`grants
      ensures grants == RestoreAll(old(grants), allocations, now)
    {
      assert allocations[0..] == allocations;
      for i := 0 to |allocations|
        invariant RestoreAll(grants, allocations[i..], now) == RestoreAll(old(grants), allocations, now)
      {
        assert allocations[i..][1..] == allocations[i + 1..];
        RestoreGrant(allocations[i].grantId, allocations[i].amount, now);
      }
    }

    /** Take an amount out of the usable grants, earliest expiry first. */
    method DrawGrants(amount: int) returns (allocations: seq<Allocation>, remaining: int)
      modifies this`grants
      ensures allocations == GrantDraws(old(grants), amount)
      ensures remaining == amount - SumAllocations(allocations)
      ensures grants == DebitAll(old(grants), allocations)
    {
      remaining := amount;
      allocations := [];
      var active := Order(grants);
      ghost var gs := grants;
      OrderPositive(gs, active);
      OrderDistinct(gs, active);
      RestWhole(gs, amount);
      DrawingStart(gs, active, amount, GrantDraws(gs, amount));
      var k := 0;
      while k < |active| && remaining > 0
        invariant 0 <= k <= |active| && Drawing(gs, active, amount, grants, allocations, remaining, k)
      {
        DrawingInRange(gs, active, amount, grants, allocations, remaining, k);
        var grant := grants[active[k]];
        var taken := Min(grant.remaining, remaining);
        DrawingStep(gs, active, amount, grants, allocations, remaining, k);
        allocations := allocations + [Allocation(active[k], taken)];
        remaining := remaining - taken;
        grants := grants[active[k] := grant.(remaining := grant.remaining - taken,
                                             status := if grant.remaining == taken then Depleted else Active)];
        k := k + 1;
      }
      DrawingEnd(gs, active, amount, grants, allocations, remaining, k);
    }

    method AllocateFunds(amount: int, now: int) returns (r: Result<Split, FundsError>)
      modifies this`grants, this`balance
      ensures (Funds(balance, grants), r) == Allocate(old(Funds(balance, grants)), amount, now)
    {
      ExpireGrants(now);
      var allocations, remaining := DrawGrants(amount);
      if balance < remaining {
        RestoreGrants(allocations, now);
        return Err(InsufficientBalance);
      }
      balance := balance - remaining;
      return Ok(Split(remaining, allocations));
    }

    // ---- Ledger ----

    method Post(kind: Usage.EntryKind, wallet: int, credit: int, detail: Usage.Detail)
      modifies this`ledger
      ensures View() == Usage.Post(old(View()), kind, wallet, credit, detail)
    {
      ledger := [Usage.LedgerEntry(|ledger|, kind, wallet + credit, wallet, credit, detail)] + ledger;
    }

    method PostUnder(key: Usage.LedgerKey, kind: Usage.EntryKind, wallet: int, credit: int, detail: Usage.Detail)
      returns (entry: Usage.LedgerEntry)
      modifies this`ledger, this`idempotency
      ensures View() == Usage.PostUnder(old(View()), key, kind, wallet, credit, detail) && entry == View().ledger[0]
    {
      Post(kind, wallet, credit, detail);
      entry := ledger[0];
      idempotency := idempotency[key := entry];
    }

    method TopUp(request: Usage.TopupRequest) returns (r: Result<Usage.LedgerEntry, Usage.UsageError>)
      modifies this
      ensures (View(), r) == Usage.TopUp(old(View()), request)
    {
      if !Usage.ValidTopup(request) {
        return Err(Usage.InvalidRequest);
      }
      var key := Usage.ClientKey(request.key);
      if key in idempotency {
        return if Usage.TopupMatches(idempotency[key], request) then Ok(idempotency[key])
               else Err(Usage.IdempotencyConflict);
      }
      balance := balance + request.amountCents;
      var entry :=
        PostUnder(key, Usage.Topup, request.amountCents, 0, Usage.Plain(request.channel + ":" + request.key));
      return Ok(entry);
    }

    method SummarizeCredit(now: int)
      modifies this`grants
      ensures View() == Usage.SummarizeCredit(old(View()), now)
    {
      ExpireGrants(now);
    }

    method PurchasePack(now: int, packId: string, key: string) returns (r: Result<nat, Usage.UsageError>)
      modifies this
      ensures (View(), r) == Usage.PurchasePack(old(View()), now, packId, key)
    {
      var found := Usage.FindPack(Usage.CATALOG, packId);
      if found.None? {
        return Err(Usage.CreditPackNotFound);
      }
      if |key| == 0 || |key| > 200 {
        return Err(Usage.InvalidRequest);
      }
      if key in packKeys {
        var id := packKeys[key];
        if id < |grants| && grants[id].packId != packId {
          return Err(Usage.IdempotencyConflict);
        }
        SummarizeCredit(now);
        return Ok(id);
      }
      var pack := found.value;
      if balance < pack.priceCents {
        return Err(Usage.UsageError.InsufficientBalance);
      }
      var id := |grants|;
      balance := balance - pack.priceCents;
      grants := grants + [Grant(pack.id, pack.creditCents, pack.creditCents, now + 180 * Usage.DAY_MS, Active)];
      packKeys := packKeys[key := id];
      Post(Usage.PackPurchase, -pack.priceCents, 0, Usage.Plain(pack.name));
      Post(Usage.CreditGrant, 0, pack.creditCents, Usage.Plain(pack.name));
      SummarizeCredit(now);
      return Ok(id);
    }

    // ---- Usage ----

    method RecordUsage(now: int, admin: bool, e: Usage.UsageEvent)
      returns (r: Result<Usage.LedgerEntry, Usage.UsageError>)
      modifies this
      ensures (View(), r) == Usage.RecordUsage(old(View()), now, admin, e)
    {
      if !Usage.ValidEvent(e) {
        return Err(Usage.InvalidRequest);
      }
      var billed := Usage.Billed(admin, e);
      var key := Usage.ClientKey(e.idempotencyKey);
      if key in idempotency {
        return if Usage.UsageMatches(idempotency[key], billed) then Ok(idempotency[key])
               else Err(Usage.IdempotencyConflict);
      }
      var allocation := AllocateFunds(billed.costCents, now);
      if allocation.Err? {
        return Err(Usage.UsageError.InsufficientBalance);
      }
      var entry :=
        PostUnder(key, Usage.UsageCharge, -allocation.value.wallet, -SumAllocations(allocation.value.allocations),
                             Usage.DetailOf(billed));
      return Ok(entry);
    }

    method SetReservation(k: nat, reservation: Usage.Reservation)
      requires k < |reservations|
      modifies this`reservations
      ensures View() == Usage.SetReservation(old(View()), k, reservation)
    {
      reservations := reservations[k := Entry(reservations[k].key, reservation)];
    }

    method Reserve(now: int, admin: bool, id: string, amountCents: int, execution: Option<Usage.TaskExecution>)
      returns (r: Result<(), Usage.UsageError>)
      modifies this
      ensures (View(), r) == Usage.Reserve(old(View()), now, admin, id, amountCents, execution)
    {
      var existing := Get(reservations, id);
      if existing.Some? {
        if existing.value.execution != execution {
          return Err(Usage.ReservationConflict);
        }
        if existing.value.status != Usage.Reserved || existing.value.leaseExpiresAt <= now {
          return Err(Usage.ReservationLeaseExpired);
        }
        return Ok(());
      }
      if execution.Some? {
        var held := TaskBoard.AssertExecution(board, now, execution.value.taskId, execution.value.executionId);
        if held.Err? {
          return Err(if held.error.TaskNotFound? then Usage.TaskNotFound else Usage.TaskLeaseExpired);
        }
      }
      var amount := if admin then 0 else amountCents;
      var allocation := AllocateFunds(amount, now);
      if allocation.Err? {
        return Err(Usage.UsageError.InsufficientBalance);
      }
      var lease := now + Usage.USAGE_RESERVATION_LEASE_DURATION_MS;
      reservations :=
        Put(reservations, id, Usage.Reservation(amount, allocation.value, execution, Usage.Reserved, lease));
      return Ok(());
    }

    method RenewReservation(now: int, id: string) returns (r: Result<(), Usage.UsageError>)
      modifies this`reservations
      ensures (View(), r) == Usage.RenewReservation(old(View()), now, id)
    {
      var k := IndexOf(reservations, id);
      if k == |reservations| || reservations[k].value.status != Usage.Reserved
         || reservations[k].value.leaseExpiresAt <= now {
        return Err(Usage.ReservationLeaseExpired);
      }
      SetReservation(k, reservations[k].value.(leaseExpiresAt := now + Usage.USAGE_RESERVATION_LEASE_DURATION_MS));
      return Ok(());
    }

    method ReleaseReservation(k: nat, now: int)
      requires k < |reservations|
      modifies this`balance, this`grants, this`reservations
      ensures View() == Usage.Release(old(View()), k, now)
    {
      var reservation := reservations[k].value;
      balance := balance + reservation.held.wallet;
      RestoreGrants(reservation.held.allocations, now);
      SetReservation(k, reservation.(status := Usage.Released));
    }

    method ReleaseUsage(now: int, id: string)
      modifies this
      ensures View() == Usage.ReleaseIfHeld(old(View()), now, id)
    {
      var k := IndexOf(reservations, id);
      if k == |reservations| || reservations[k].value.status != Usage.Reserved {
        return;
      }
      ReleaseReservation(k, now);
    }

    // ---- Settlement ----

    /** Use up what is held, grant by grant, and give back the rest of each. */
    method ConsumeGrants(held: seq<Allocation>, cost: int, now: int) returns (consumed: int, remaining: int)
      modifies this`grants
      ensures var taken := Draw(Amounts(held), cost);
              && grants == RestoreAll(old(grants), Refunds(held, taken), now)
              && consumed == Sum(taken) && remaining == cost - Sum(taken)
    {
      remaining := cost;
      consumed := 0;
      ghost var gs, taken := grants, Draw(Amounts(held), cost);
      ghost var back := Refunds(held, taken);
      for i := 0 to |held|
        invariant consumed == Sum(taken[..i]) && remaining == cost - consumed
        invariant grants == RestoreAll(gs, back[..i], now)
      {
        ConsumingStep(gs, held, cost, now, taken, back, i);
        var part := Min(held[i].amount, remaining);
        consumed := consumed + part;
        remaining := remaining - part;
        RestoreGrant(held[i].grantId, held[i].amount - part, now);
      }
      assert taken[..|held|] == taken && back[..|held|] == back;
    }

    /** Charge a cost to what is held, give back what is over, and allocate what is missing. */
    method ChargeHeld(held: Split, cost: int, now: int) returns (r: Result<Charge, FundsError>)
      modifies this`balance, this`grants
      ensures (Funds(balance, grants), r) == F.ChargeHeld(old(Funds(balance, grants)), held, cost, now)
    {
      ghost var f := Funds(balance, grants);
      var creditConsumed, remaining := ConsumeGrants(held.allocations, cost, now);
      var walletConsumed := Min(held.wallet, remaining);
      remaining := remaining - walletConsumed;
      balance := balance + held.wallet - walletConsumed;
      ghost var f1 := Funds(balance, grants);
      r := Ok(Charge(walletConsumed, creditConsumed));
      if remaining > 0 {
        r := AllocateMore(remaining, now, walletConsumed, creditConsumed);
      }
      ChargeHeldIs(f, held, cost, now, creditConsumed, walletConsumed, f1, Funds(balance, grants), r);
    }

    /** Allocate what a charge is short of, on top of what it has taken so far. */
    method AllocateMore(missing: int, now: int, wallet: int, credit: int) returns (r: Result<Charge, FundsError>)
      modifies this`balance, this`grants
      ensures (Funds(balance, grants), r) == Overrun(old(Funds(balance, grants)), missing, now, wallet, credit)
    {
      var extra := AllocateFunds(missing, now);
      if extra.Err? {
        return Err(extra.error);
      }
      return Ok(Charge(wallet + extra.value.wallet, credit + SumAllocations(extra.value.allocations)));
    }

    method CompleteChat(now: int, c: Usage.Completion)
      modifies this`chats
      ensures View() == Usage.CompleteChat(old(View()), now, c)
    {
      chats := Put(chats, c.requestKey,
                   Usage.ChatRecord(c.fingerprint, c.executionId, Usage.ChatStatus.Complete, Some(c.payload),
                                    now + Usage.DAY_MS));
    }

    /** The checks that come before the idempotency key is looked up. */
    method CheckSettlement(id: string, e: Usage.UsageEvent, completion: Option<Usage.Completion>,
                           executionId: Option<nat>)
      returns (refusal: Option<Usage.UsageError>)
      ensures refusal == Usage.EarlyRefusal(View(), id, e, completion, executionId)
    {
      var chat := if completion.Some? then Get(chats, completion.value.requestKey) else None;
      if completion.Some? {
        var c := completion.value;
        if e.idempotencyKey != Usage.ChatKey(c.requestKey, c.fingerprint) {
          return Some(Usage.ChatKeyMismatch);
        }
        if c.payloadBytes > Usage.CHAT_RESPONSE_CACHE_MAX_BYTES {
          return Some(Usage.ChatResponseTooLarge);
        }
        if chat.None? || chat.value.fingerprint != c.fingerprint || chat.value.executionId != c.executionId {
          return Some(Usage.ChatNotClaimed);
        }
        if chat.value.status == Usage.ChatStatus.Failed {
          return Some(Usage.ChatNotPending);
        }
      }
      var k := IndexOf(reservations, id);
      if e.task.Some?
         && (executionId.None? || k == |reservations|
             || reservations[k].value.execution != Some(Usage.TaskExecution(e.task.value, executionId.value))) {
        return Some(Usage.ReservationConflict);
      }
      return None;
    }

    /** The checks of a settlement whose key is not yet in the books. */
    method CheckLive(now: int, id: string, e: Usage.UsageEvent, completion: Option<Usage.Completion>,
                     executionId: Option<nat>)
      returns (refusal: Option<Usage.UsageError>)
      requires e.task.Some? ==> executionId.Some?
      ensures refusal == Usage.LateRefusal(View(), now, id, e, completion, executionId)
    {
      if e.task.Some? {
        var held := TaskBoard.AssertExecution(board, now, e.task.value, executionId.value);
        if held.Err? {
          return Some(if held.error.TaskNotFound? then Usage.TaskNotFound else Usage.TaskLeaseExpired);
        }
      }
      if completion.Some? && Get(chats, completion.value.requestKey).Some?
         && Get(chats, completion.value.requestKey).value.status == Usage.ChatStatus.Complete {
        return Some(Usage.ChatBillingInconsistent);
      }
      var k := IndexOf(reservations, id);
      if k == |reservations| || reservations[k].value.status != Usage.Reserved
         || reservations[k].value.leaseExpiresAt <= now {
        return Some(Usage.ReservationLeaseExpired);
      }
      return None;
    }

    /** Usage already billed: give the reservation back, complete a pending chat request. */
    method Replay(now: int, id: string, completion: Option<Usage.Completion>)
      modifies this
      ensures View() == Usage.SettleReplay(old(View()), now, id, completion)
    {
      ReleaseUsage(now, id);
      if completion.Some? && Get(chats, completion.value.requestKey).Some?
         && Get(chats, completion.value.requestKey).value.status == Usage.ChatStatus.Pending {
        CompleteChat(now, completion.value);
      }
    }

    /** Charge what the reservation holds and post the entry. */
    method ChargeReservation(now: int, k: nat, key: string, billed: Usage.UsageEvent)
      returns (r: Result<Usage.LedgerEntry, Usage.UsageError>)
      requires k < |reservations|
      modifies this
      ensures (View(), r) == Usage.ChargeReservation(old(View()), now, k, key, billed)
    {
      ghost var u := View();
      var charged := ChargeHeld(reservations[k].value.held, billed.costCents, now);
      ghost var funds := Funds(balance, grants);
      if charged.Err? {
        r := Err(Usage.UsageError.InsufficientBalance);
      } else {
        var entry := BookCharge(k, key, billed, charged.value);
        r := Ok(entry);
      }
      ChargeIs(u, now, k, key, billed, funds, charged, View(), r);
    }

    method BookCharge(k: nat, key: string, billed: Usage.UsageEvent, charge: Charge) returns (entry: Usage.LedgerEntry)
      requires k < |reservations|
      modifies this`ledger, this`idempotency, this`reservations
      ensures var u :=
        Usage.PostUnder(old(View()), Usage.ClientKey(key), Usage.UsageCharge, -charge.wallet, -charge.credit,
                                       Usage.DetailOf(billed));
              && View() == Usage.SetReservation(u, k, old(reservations)[k].value.(status := Usage.Settled))
              && entry == u.ledger[0]
    {
      entry := PostUnder(Usage.ClientKey(key), Usage.UsageCharge, -charge.wallet, -charge.credit,
                         Usage.DetailOf(billed));
      SetReservation(k, reservations[k].value.(status := Usage.Settled));
    }

    /** Usage not yet billed: charge the reservation and complete the chat request. */
    method SettleCharge(now: int, k: nat, key: string, billed: Usage.UsageEvent, completion: Option<Usage.Completion>)
      returns (r: Result<Usage.LedgerEntry, Usage.UsageError>)
      requires k < |reservations|
      modifies this
      ensures (View(), r) == Usage.SettleCharge(old(View()), now, k, key, billed, completion)
    {
      r := ChargeReservation(now, k, key, billed);
      if r.Ok? && completion.Some? {
        CompleteChat(now, completion.value);
      }
    }

    method SettleUsage(now: int, admin: bool, id: string, e: Usage.UsageEvent, completion: Option<Usage.Completion>,
                       executionId: Option<nat>) returns (r: Result<Usage.LedgerEntry, Usage.UsageError>)
      modifies this
      ensures (View(), r) == Usage.SettleUsage(old(View()), now, admin, id, e, completion, executionId)
    {
      if !Usage.ValidEvent(e) {
        return Err(Usage.InvalidRequest);
      }
      var billed := Usage.Billed(admin, e);
      var refusal := CheckSettlement(id, e, completion, executionId);
      if refusal.Some? {
        return Err(refusal.value);
      }
      var key := Usage.ClientKey(e.idempotencyKey);
      if key in idempotency {
        if !Usage.UsageMatches(idempotency[key], billed) {
          return Err(Usage.IdempotencyConflict);
        }
        r := Ok(idempotency[key]);
        Replay(now, id, completion);
        return;
      }
      var lost := CheckLive(now, id, e, completion, executionId);
      if lost.Some? {
        return Err(lost.value);
      }
      r := SettleCharge(now, IndexOf(reservations, id), e.idempotencyKey, billed, completion);
    }

    // ---- Chat requests ----

    /** Claiming, once expired records have been swept. */
    method ClaimChat(now: int, requestKey: string, fingerprint: string, executionId: Option<nat>)
      returns (r: Result<Usage.ChatClaim, Usage.UsageError>)
      modifies this`chats
      ensures (View(), r) == Usage.ClaimChat(old(View()), now, requestKey, fingerprint, executionId)
    {
      var existing := Get(chats, requestKey);
      if existing.Some? {
        if existing.value.fingerprint != fingerprint || existing.value.executionId != executionId {
          return Err(Usage.IdempotencyConflict);
        }
        if existing.value.status == Usage.ChatStatus.Complete {
          return if existing.value.payload.None? then Err(Usage.ChatCacheInvalid)
                 else Ok(Usage.Done(existing.value.payload.value));
        }
        if existing.value.status == Usage.ChatStatus.Pending {
          return Ok(Usage.StillPending);
        }
      }
      chats := Put(chats, requestKey,
                   Usage.ChatRecord(fingerprint, executionId, Usage.ChatStatus.Pending, None, now + Usage.HOUR_MS));
      return Ok(Usage.Claimed);
    }

    method FailChat(now: int, requestKey: string, fingerprint: string, executionId: Option<nat>)
      modifies this`chats
      ensures View() == Usage.FailChat(old(View()), now, requestKey, fingerprint, executionId)
    {
      var existing := Get(chats, requestKey);
      if existing.None? || existing.value.fingerprint != fingerprint || existing.value.executionId != executionId
         || existing.value.status != Usage.ChatStatus.Pending {
        return;
      }
      if Usage.ClientKey(Usage.ChatKey(requestKey, fingerprint)) in idempotency {
        return;
      }
      chats := Put(chats, requestKey,
                   existing.value.(status := Usage.ChatStatus.Failed, payload := None,
                                   expiresAt := now + Usage.HOUR_MS));
    }

    /** Delete expired chat records in order, until the budget is spent; report how many. */
    method SweepChats(now: int, budget: nat) returns (removed: nat)
      modifies this`chats
      ensures View() == old(View()).(chats := Usage.SweepChats(old(chats), now, budget))
      ensures removed == |old(chats)| - |chats| && removed <= budget
    {
      var kept: Dict<Usage.ChatRecord> := [];
      removed := 0;
      var i := 0;
      assert chats[0..] == chats && kept + Usage.SweepChats(chats, now, budget) == Usage.SweepChats(chats, now, budget);
      while i < |chats| && removed < budget
        invariant 0 <= i <= |chats| && removed <= budget && |kept| + removed == i
        invariant kept + Usage.SweepChats(chats[i..], now, budget - removed) == Usage.SweepChats(chats, now, budget)
      {
        assert chats[i..][1..] == chats[i + 1..];
        if chats[i].value.expiresAt <= now {
          removed := removed + 1;
        } else {
          kept := kept + [chats[i]];
        }
        i := i + 1;
      }
      chats := kept + chats[i..];
    }

    // ---- The task board ----

    /** One call on the task part of the state, which is an object of its own for as long as it takes. */
    method BoardCall(now: int, op: TaskBoard.Op)
      modifies this`board
      ensures View() == old(View()).(board := TaskBoard.Step(old(board), now, op))
    {
      var tasks := new TaskStore.TaskState(board);
      tasks.Perform(now, op);
      board := tasks.View();
    }

    // ---- Payment orders ----

    /** The answer to an order request that makes no new order. */
    method KnownOrder(request: Usage.OrderRequest) returns (answer: Option<Result<nat, Usage.UsageError>>)
      ensures answer == Usage.KnownOrder(View(), request)
    {
      if |request.key| == 0 || |request.key| > 200 || request.amountCents < 100 || request.amountCents > 1_000_000
         || (request.channel != "wechat" && request.channel != "alipay") {
        return Some(Err(Usage.InvalidRequest));
      }
      if request.key in orderKeys && orderKeys[request.key] in orders {
        var existing := orders[orderKeys[request.key]];
        if existing.amountCents != request.amountCents || existing.channel != request.channel {
          return Some(Err(Usage.IdempotencyConflict));
        }
        return Some(Ok(orderKeys[request.key]));
      }
      return None;
    }

    method AddOrder(id: nat, request: Usage.OrderRequest)
      modifies this`orders, this`orderKeys
      ensures View() == Usage.AddOrder(old(View()), id, request)
    {
      orders := orders[id := Usage.PaymentOrder(request.amountCents, "CNY", request.channel, Usage.OrderPending, None)];
      orderKeys := orderKeys[request.key := id];
    }

    method PayOrder(event: Usage.PaymentEvent) returns (r: Result<Usage.LedgerEntry, Usage.UsageError>)
      requires event.order in orders
      modifies this
      ensures (View(), r) == Usage.PayOrder(old(View()), event)
    {
      var current := orders[event.order];
      if current.amountCents != event.amountCents || current.currency != event.currency
         || current.channel != event.channel {
        return Err(Usage.OrderMismatch);
      }
      var key := Usage.PaymentOrderKey(event.order);
      if current.status == Usage.Paid {
        if current.providerPaymentId != Some(event.providerPaymentId) {
          return Err(Usage.ProviderConflict);
        }
        if key !in idempotency {
          return Err(Usage.PaymentLedgerMissing);
        }
        return Ok(idempotency[key]);
      }
      if current.status != Usage.OrderPending {
        return Err(Usage.OrderNotPending);
      }
      balance := balance + current.amountCents;
      orders := orders[event.order := current.(status := Usage.Paid,
                                               providerPaymentId := Some(event.providerPaymentId))];
      var entry :=
        PostUnder(key, Usage.Topup, current.amountCents, 0, Usage.Plain(event.channel + ":" + event.providerPaymentId));
      return Ok(entry);
    }
  }
}
