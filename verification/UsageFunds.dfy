/** What each movement of money does to a user's funds: nothing is created, nothing is lost,
    and there is always room under a grant's original amount for what reservations hold. */
module UsageFunds {
  import opened Common
  import opened Draws
  import opened JsMap
  import opened Funds
  import opened Usage

  // ---- What live reservations hold ----

  function HeldFor(i: nat): Entry<Reservation> -> int {
    (e: Entry<Reservation>) => if e.value.status == Reserved then AmountFor(e.value.held.allocations, i) else 0
  }

  function HeldWallet(e: Entry<Reservation>): int {
    if e.value.status == Reserved then e.value.held.wallet else 0
  }

  function HeldCredit(e: Entry<Reservation>): int {
    if e.value.status == Reserved then SumAllocations(e.value.held.allocations) else 0
  }

  ghost predicate GoodHold(held: Split, n: nat) {
    0 <= held.wallet && Positive(held.allocations) && DistinctGrants(held.allocations) && Within(held.allocations, n)
  }

  ghost predicate GoodReservation(r: Reservation, n: nat) {
    GoodHold(r.held, n) && r.held.wallet + SumAllocations(r.held.allocations) == r.amountCents
  }

  ghost predicate GoodReservations(rs: Dict<Reservation>, n: nat) {
    Distinct(rs) && forall k | 0 <= k < |rs| :: GoodReservation(rs[k].value, n)
  }

  /** Funds are in bounds, with room for what the reservations hold and for one more list. */
  ghost predicate BoundsWith(f: Funds, rs: Dict<Reservation>, a: seq<Allocation>) {
    && 0 <= f.balance
    && forall i | 0 <= i < |f.grants| ::
         && 0 <= f.grants[i].remaining
         && f.grants[i].remaining + SumOf(HeldFor(i), rs) + AmountFor(a, i) <= f.grants[i].original
  }

  ghost predicate Bounds(f: Funds, rs: Dict<Reservation>) {
    BoundsWith(f, rs, [])
  }

  lemma {:induction false} HeldNotNegative(rs: Dict<Reservation>, n: nat, i: nat)
    requires forall k | 0 <= k < |rs| :: GoodReservation(rs[k].value, n)
    ensures 0 <= SumOf(HeldFor(i), rs)
  {
    if rs != [] {
      HeldNotNegative(rs[1..], n, i);
      AmountForNotNegative(rs[0].value.held.allocations, i);
    }
  }

  lemma BoundsMeansInBounds(f: Funds, rs: Dict<Reservation>, a: seq<Allocation>)
    requires BoundsWith(f, rs, a) && GoodReservations(rs, |f.grants|) && NotNegative(a)
    ensures GrantsInBounds(f.grants) && Bounds(f, rs)
  {
    forall i | 0 <= i < |f.grants|
      ensures f.grants[i].remaining + SumOf(HeldFor(i), rs) <= f.grants[i].original
      ensures f.grants[i].remaining <= f.grants[i].original
    {
      HeldNotNegative(rs, |f.grants|, i);
      AmountForNotNegative(a, i);
    }
  }

  // ---- Allocation ----

  /** Allocating takes what it says it takes, and leaves room to put it back. */
  lemma AllocateKeeps(f: Funds, rs: Dict<Reservation>, amount: int, now: int)
    requires 0 <= amount && Bounds(f, rs) && GoodReservations(rs, |f.grants|)
    ensures var (f', r) := Allocate(f, amount, now);
            && |f'.grants| == |f.grants|
            && (r.Err? ==> f' == Funds(f.balance, ExpireGrants(f.grants, now)) && Bounds(f', rs))
            && (r.Ok? ==>
                  && BoundsWith(f', rs, r.value.allocations) && Bounds(f', rs)
                  && GoodHold(r.value, |f.grants|)
                  && r.value.wallet + SumAllocations(r.value.allocations) == amount
                  && f'.balance == f.balance - r.value.wallet
                  && SumOf(Remaining, f'.grants) == SumOf(Remaining, f.grants) - SumAllocations(r.value.allocations))
  {
    var (f', r) := Allocate(f, amount, now);
    BoundsMeansInBounds(f, rs, []);
    AllocateOutcome(f, amount, now);
    if r.Ok? {
      AllocateGrants(f, amount, now);
      var a := r.value.allocations;
      forall i | 0 <= i < |f'.grants|
        ensures 0 <= f'.grants[i].remaining
        ensures f'.grants[i].remaining + SumOf(HeldFor(i), rs) + AmountFor(a, i) <= f'.grants[i].original
      {
        assert f.grants[i].remaining + SumOf(HeldFor(i), rs) + AmountFor([], i) <= f.grants[i].original;
      }
      BoundsMeansInBounds(f', rs, a);
    }
  }

  // ---- Giving back ----

  lemma RoomToRestore(f: Funds, rs: Dict<Reservation>, a: seq<Allocation>)
    requires BoundsWith(f, rs, a) && GoodReservations(rs, |f.grants|)
    ensures HasRoom(f.grants, a)
  {
    forall i | 0 <= i < |f.grants| ensures f.grants[i].remaining + AmountFor(a, i) <= f.grants[i].original {
      HeldNotNegative(rs, |f.grants|, i);
    }
  }

  /** Restoring a list there is room for puts back exactly its amounts: the cap at the original
      amount never takes effect. */
  lemma RestoreKeeps(f: Funds, rs: Dict<Reservation>, a: seq<Allocation>, now: int)
    requires BoundsWith(f, rs, a) && GoodReservations(rs, |f.grants|) && NotNegative(a) && Within(a, |f.grants|)
    ensures var gs := RestoreAll(f.grants, a, now);
            && Bounds(Funds(f.balance, gs), rs)
            && SumOf(Remaining, gs) == SumOf(Remaining, f.grants) + SumAllocations(a)
            && forall i | 0 <= i < |f.grants| :: gs[i] == Credited(f.grants[i], AmountFor(a, i), now)
  {
    var gs := RestoreAll(f.grants, a, now);
    RoomToRestore(f, rs, a);
    forall i | 0 <= i < |f.grants| ensures gs[i] == Credited(f.grants[i], AmountFor(a, i), now) && 0 <= AmountFor(a, i)
    {
      RestoreAllAt(f.grants, a, now, i);
      AmountForNotNegative(a, i);
    }
    RemainingAfter(f.grants, gs, a);
    forall i | 0 <= i < |gs| ensures gs[i].remaining + SumOf(HeldFor(i), rs) + AmountFor([], i) <= gs[i].original {
      assert f.grants[i].remaining + SumOf(HeldFor(i), rs) + AmountFor(a, i) <= f.grants[i].original;
    }
  }

  // ---- Charging what is held ----

  lemma {:induction false} RefundFacts(a: seq<Allocation>, cost: int, i: nat)
    requires NotNegative(a) && 0 <= cost
    ensures var back := Refunds(a, Draw(Amounts(a), cost));
            && NotNegative(back)
            && 0 <= AmountFor(back, i) <= AmountFor(a, i)
            && SumAllocations(back) == SumAllocations(a) - Sum(Draw(Amounts(a), cost))
  {
    if a != [] {
      var first, rest := a[0], a[1..];
      var x := Min(first.amount, cost);
      assert a == [first] + rest;
      AllocationCons(first, rest, i);
      RefundsCons(first, rest, cost);
      RefundFacts(rest, cost - x, i);
      AllocationCons(Allocation(first.grantId, first.amount - x), Refunds(rest, Draw(Amounts(rest), cost - x)), i);
    }
  }

  lemma {:induction false} SumOfAmounts(a: seq<Allocation>)
    ensures Sum(Amounts(a)) == SumAllocations(a)
  {
    if a != [] {
      SumOfAmounts(a[1..]);
      assert Amounts(a)[1..] == Amounts(a[1..]);
    }
  }

  lemma RestoreNothing(gs: seq<Grant>, grantId: nat, rest: seq<Allocation>, now: int)
    ensures RestoreAll(gs, [Allocation(grantId, 0)] + rest, now) == RestoreAll(gs, rest, now)
  {
    assert ([Allocation(grantId, 0)] + rest)[1..] == rest;
  }

  lemma {:induction false} NothingToRefund(gs: seq<Grant>, a: seq<Allocation>, cost: int, now: int)
    requires NotNegative(a) && SumAllocations(a) <= cost
    ensures RestoreAll(gs, Refunds(a, Draw(Amounts(a), cost)), now) == gs
  {
    if a != [] {
      var first, rest := a[0], a[1..];
      assert a == [first] + rest;
      AllocationCons(first, rest, 0);
      SumNotNegative(rest);
      RefundsCons(first, rest, cost);
      NothingToRefund(gs, rest, cost - first.amount, now);
      RestoreNothing(gs, first.grantId, Refunds(rest, Draw(Amounts(rest), cost - first.amount)), now);
    }
  }

  lemma SumNotNegative(a: seq<Allocation>)
    requires NotNegative(a)
    ensures 0 <= SumAllocations(a)
  {
    SumOfAmounts(a);
    DrawBounds(Amounts(a), 0);
  }

  lemma ConsumedBounds(held: Split, cost: int, n: nat)
    requires GoodHold(held, n) && 0 <= cost
    ensures Sum(Draw(Amounts(held.allocations), cost)) == Min(cost, SumAllocations(held.allocations))
    ensures 0 <= SumAllocations(held.allocations)
  {
    SumOfAmounts(held.allocations);
    DrawBounds(Amounts(held.allocations), cost);
  }

  /** The funds after the held part of a charge, before any overrun is allocated. */
  function AfterHeld(f: Funds, held: Split, cost: int, now: int): Funds {
    var consumed := Draw(Amounts(held.allocations), cost);
    Funds(f.balance + held.wallet - Min(held.wallet, cost - Sum(consumed)),
          RestoreAll(f.grants, Refunds(held.allocations, consumed), now))
  }

  lemma AfterHeldKeeps(f: Funds, rs: Dict<Reservation>, held: Split, cost: int, now: int)
    requires 0 <= cost && GoodHold(held, |f.grants|) && GoodReservations(rs, |f.grants|)
    requires BoundsWith(f, rs, held.allocations)
    ensures var f1 := AfterHeld(f, held, cost, now);
            var consumed := Min(cost, SumAllocations(held.allocations));
            && Bounds(f1, rs) && |f1.grants| == |f.grants|
            && f1.balance == f.balance + held.wallet - Min(held.wallet, cost - consumed)
            && SumOf(Remaining, f1.grants) == SumOf(Remaining, f.grants) + SumAllocations(held.allocations) - consumed
            && (cost >= held.wallet + SumAllocations(held.allocations) ==> f1 == f)
  {
    var a := held.allocations;
    var back := Refunds(a, Draw(Amounts(a), cost));
    ConsumedBounds(held, cost, |f.grants|);
    forall i | 0 <= i < |f.grants|
      ensures f.grants[i].remaining + SumOf(HeldFor(i), rs) + AmountFor(back, i) <= f.grants[i].original
    {
      RefundFacts(a, cost, i);
    }
    RefundFacts(a, cost, 0);
    RestoreKeeps(f, rs, back, now);
    if cost >= held.wallet + SumAllocations(a) {
      NothingToRefund(f.grants, a, cost, now);
    }
    assert Bounds(AfterHeld(f, held, cost, now), rs);
  }

  /** What a charge of a cost to held funds leaves. */
  ghost predicate Charged(f: Funds, rs: Dict<Reservation>, held: Split, cost: int, now: int, f': Funds,
                          r: Result<Charge, FundsError>)
  {
    && Bounds(f', rs) && |f'.grants| == |f.grants|
    && (r.Err? ==> f' == Funds(f.balance, ExpireGrants(f.grants, now)))
    && (r.Ok? ==>
          && r.value.wallet + r.value.credit == cost
          && f'.balance == f.balance + held.wallet - r.value.wallet
          && SumOf(Remaining, f'.grants)
             == SumOf(Remaining, f.grants) + SumAllocations(held.allocations) - r.value.credit)
  }

  /** Charging a reservation takes exactly the cost; a refused overrun changes nothing but
      marks grants that have expired. */
  lemma ChargeKeeps(f: Funds, rs: Dict<Reservation>, held: Split, cost: int, now: int)
    requires 0 <= cost && GoodHold(held, |f.grants|) && GoodReservations(rs, |f.grants|)
    requires BoundsWith(f, rs, held.allocations)
    ensures Charged(f, rs, held, cost, now, ChargeHeld(f, held, cost, now).0, ChargeHeld(f, held, cost, now).1)
  {
    var f1 := AfterHeld(f, held, cost, now);
    ConsumedBounds(held, cost, |f.grants|);
    AfterHeldKeeps(f, rs, held, cost, now);
    var missing := cost - Min(cost, SumAllocations(held.allocations))
                   - Min(held.wallet, cost - Min(cost, SumAllocations(held.allocations)));
    if missing > 0 {
      AllocateKeeps(f1, rs, missing, now);
    }
  }

  // ---- Reservations entering and leaving ----

  lemma HoldOut(f: Funds, rs: Dict<Reservation>, k: nat, status: ReservationStatus)
    requires k < |rs| && rs[k].value.status == Reserved && status != Reserved
    requires Bounds(f, rs) && GoodReservations(rs, |f.grants|)
    ensures var rs' := rs[k := Entry(rs[k].key, rs[k].value.(status := status))];
            && BoundsWith(f, rs', rs[k].value.held.allocations) && GoodReservations(rs', |f.grants|)
            && SumOf(HeldWallet, rs') == SumOf(HeldWallet, rs) - rs[k].value.held.wallet
            && SumOf(HeldCredit, rs') == SumOf(HeldCredit, rs) - SumAllocations(rs[k].value.held.allocations)
  {
    var e := Entry(rs[k].key, rs[k].value.(status := status));
    var rs' := rs[k := e];
    SumOfUpdate(HeldWallet, rs, k, e);
    SumOfUpdate(HeldCredit, rs, k, e);
    forall i | 0 <= i < |f.grants|
      ensures f.grants[i].remaining + SumOf(HeldFor(i), rs') + AmountFor(rs[k].value.held.allocations, i)
              <= f.grants[i].original
    {
      assert f.grants[i].remaining + SumOf(HeldFor(i), rs) + AmountFor([], i) <= f.grants[i].original;
      SumOfUpdate(HeldFor(i), rs, k, e);
    }
  }

  lemma HoldIn(f: Funds, rs: Dict<Reservation>, id: string, r: Reservation)
    requires IndexOf(rs, id) == |rs| && r.status == Reserved && GoodReservation(r, |f.grants|)
    requires BoundsWith(f, rs, r.held.allocations) && GoodReservations(rs, |f.grants|)
    ensures var rs' := Put(rs, id, r);
            && Bounds(f, rs') && GoodReservations(rs', |f.grants|)
            && SumOf(HeldWallet, rs') == SumOf(HeldWallet, rs) + r.held.wallet
            && SumOf(HeldCredit, rs') == SumOf(HeldCredit, rs) + SumAllocations(r.held.allocations)
  {
    var e := Entry(id, r);
    SumOfAppend(HeldWallet, rs, e);
    SumOfAppend(HeldCredit, rs, e);
    forall i | 0 <= i < |f.grants|
      ensures f.grants[i].remaining + SumOf(HeldFor(i), rs + [e]) + AmountFor([], i) <= f.grants[i].original
    {
      SumOfAppend(HeldFor(i), rs, e);
    }
  }
}
