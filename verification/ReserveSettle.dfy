/** Holding an estimate and then charging a cost against it is the same as charging the cost
    directly, whatever the estimate was. */
module ReserveSettle {
  import opened Common
  import opened Draws
  import opened Funds

  // ---- Consuming held allocations, position by position in payment order ----

  function HeldRefunds(order: seq<nat>, draws: seq<int>, cost: int): seq<Allocation>
    requires |order| == |draws|
  {
    var a := Allocations(order, draws);
    Refunds(a, Draw(Amounts(a), cost))
  }

  lemma HeldUnfold(order: seq<nat>, draws: seq<int>, cost: int)
    requires |order| == |draws| > 0 && NonNegative(draws) && 0 <= cost
    ensures var a, rest := Allocations(order, draws), Allocations(order[1..], draws[1..]);
            var first := Min(draws[0], cost);
            && Sum(Draw(Amounts(a), cost)) == first + Sum(Draw(Amounts(rest), cost - first))
            && if draws[0] > 0 then
                 && HeldRefunds(order, draws, cost)
                    == [Allocation(order[0], draws[0] - first)] + HeldRefunds(order[1..], draws[1..], cost - first)
               else
                 HeldRefunds(order, draws, cost) == HeldRefunds(order[1..], draws[1..], cost - first)
  {
    var rest := Allocations(order[1..], draws[1..]);
    if draws[0] > 0 {
      assert Allocations(order, draws) == [Allocation(order[0], draws[0])] + rest;
      RefundsCons(Allocation(order[0], draws[0]), rest, cost);
    } else {
      assert Allocations(order, draws) == rest;
    }
  }

  lemma {:induction false} ConsumedSum(order: seq<nat>, draws: seq<int>, cost: int)
    requires |order| == |draws| && NonNegative(draws) && 0 <= cost
    ensures Sum(Draw(Amounts(Allocations(order, draws)), cost)) == Sum(Draw(draws, cost))
  {
    if order != [] {
      HeldUnfold(order, draws, cost);
      ConsumedSum(order[1..], draws[1..], cost - Min(draws[0], cost));
    }
  }

  lemma {:induction false} RefundsWithin(order: seq<nat>, draws: seq<int>, cost: int)
    requires |order| == |draws| && NonNegative(draws) && 0 <= cost
    ensures NotNegative(HeldRefunds(order, draws, cost))
    ensures forall j | 0 <= j < |HeldRefunds(order, draws, cost)| :: HeldRefunds(order, draws, cost)[j].grantId in order
  {
    if order != [] {
      var first := Min(draws[0], cost);
      HeldUnfold(order, draws, cost);
      RefundsWithin(order[1..], draws[1..], cost - first);
      var rest := HeldRefunds(order[1..], draws[1..], cost - first);
      forall j | 0 <= j < |rest| ensures rest[j].grantId in order {
        assert rest[j].grantId in order[1..];
      }
    }
  }

  /** The refund of the first grant in the order. */
  lemma RefundForFirst(order: seq<nat>, draws: seq<int>, cost: int)
    requires |order| == |draws| > 0 && NonNegative(draws) && 0 <= cost && DistinctIndices(order)
    ensures AmountFor(HeldRefunds(order, draws, cost), order[0]) == draws[0] - Min(draws[0], cost)
  {
    var tail := order[1..];
    var rest := HeldRefunds(tail, draws[1..], cost - Min(draws[0], cost));
    HeldUnfold(order, draws, cost);
    RefundsWithin(tail, draws[1..], cost - Min(draws[0], cost));
    assert order[0] !in tail;
    NotAllocated(rest, tail, order[0]);
    AllocationCons(Allocation(order[0], draws[0] - Min(draws[0], cost)), rest, order[0]);
  }

  /** The refund of a later grant is that of the refunds without the first. */
  lemma RefundForLater(order: seq<nat>, draws: seq<int>, cost: int, i: nat)
    requires |order| == |draws| > 0 && NonNegative(draws) && 0 <= cost && i != order[0]
    ensures AmountFor(HeldRefunds(order, draws, cost), i)
            == AmountFor(HeldRefunds(order[1..], draws[1..], cost - Min(draws[0], cost)), i)
  {
    var x := Min(draws[0], cost);
    HeldUnfold(order, draws, cost);
    AllocationCons(Allocation(order[0], draws[0] - x), HeldRefunds(order[1..], draws[1..], cost - x), i);
  }

  lemma {:induction false} RefundFor(order: seq<nat>, draws: seq<int>, cost: int, k: nat)
    requires |order| == |draws| && NonNegative(draws) && 0 <= cost && DistinctIndices(order) && k < |order|
    ensures AmountFor(HeldRefunds(order, draws, cost), order[k]) == draws[k] - Draw(draws, cost)[k]
  {
    if k == 0 {
      RefundForFirst(order, draws, cost);
    } else {
      assert order[k] != order[0] && order[1..][k - 1] == order[k];
      RefundForLater(order, draws, cost, order[k]);
      RefundFor(order[1..], draws[1..], cost - Min(draws[0], cost), k - 1);
    }
  }

  // ---- After the refund, grants stand as if only the consumed amount had been drawn ----

  ghost predicate Fresh(gs: seq<Grant>, now: int) {
    && GrantsInBounds(gs)
    && forall i | 0 <= i < |gs| :: gs[i].status == Active ==> now < gs[i].expiresAt
  }

  lemma RefundAt(gs: seq<Grant>, a: int, cost: int, i: nat)
    requires 0 <= a && 0 <= cost && i < |gs|
    ensures var r := HeldRefunds(Order(gs), Draw(Pots(gs, Order(gs)), a), cost);
            && AmountFor(r, i) == AmountFor(GrantDraws(gs, a), i) - AmountFor(GrantDraws(gs, Min(a, cost)), i)
            && 0 <= AmountFor(r, i)
  {
    var order := Order(gs);
    var pots := Pots(gs, order);
    var draws := Draw(pots, a);
    OrderFacts(gs);
    DrawBounds(pots, a);
    DrawBounds(pots, Min(a, cost));
    RefundsWithin(order, draws, cost);
    AmountForNotNegative(HeldRefunds(order, draws, cost), i);
    if i in order {
      var k :| 0 <= k < |order| && order[k] == i;
      RefundFor(order, draws, cost, k);
      DrawOfDraw(pots, a, cost);
      AllocationFor(order, draws, k);
      AllocationFor(order, Draw(pots, Min(a, cost)), k);
    } else {
      NotAllocated(HeldRefunds(order, draws, cost), order, i);
      AllocationFacts(order, draws);
      AllocationFacts(order, Draw(pots, Min(a, cost)));
      NotAllocated(GrantDraws(gs, a), order, i);
      NotAllocated(GrantDraws(gs, Min(a, cost)), order, i);
    }
  }

  lemma CreditedBack(g: Grant, taken: int, kept: int, now: int)
    requires WithinGrant(g, taken) && 0 <= kept <= taken && 0 <= g.remaining <= g.original
    requires g.status == Active ==> now < g.expiresAt
    ensures Debited(g, taken).remaining + (taken - kept) <= g.original == Debited(g, taken).original
    ensures Credited(Debited(g, taken), taken - kept, now) == Debited(g, kept)
  {
  }

  lemma RefundLeavesGrant(gs: seq<Grant>, a: int, cost: int, now: int, i: nat, debited: seq<Grant>,
                          back: seq<Allocation>)
    requires 0 <= a && 0 <= cost && Fresh(gs, now) && i < |gs|
    requires debited == DebitAll(gs, GrantDraws(gs, a))
             && back == HeldRefunds(Order(gs), Draw(Pots(gs, Order(gs)), a), cost)
    ensures debited[i].remaining + AmountFor(back, i) <= debited[i].original
    ensures Credited(debited[i], AmountFor(back, i), now) == DebitAll(gs, GrantDraws(gs, Min(a, cost)))[i]
  {
    GrantDrawFacts(gs, a);
    GrantDrawFacts(gs, Min(a, cost));
    DebitAllAt(gs, GrantDraws(gs, a), i);
    DebitAllAt(gs, GrantDraws(gs, Min(a, cost)), i);
    RefundAt(gs, a, cost, i);
    CreditedBack(gs[i], AmountFor(GrantDraws(gs, a), i), AmountFor(GrantDraws(gs, Min(a, cost)), i), now);
  }

  lemma HeldBackNotNegative(gs: seq<Grant>, a: int, cost: int)
    requires 0 <= a && 0 <= cost
    ensures NotNegative(HeldRefunds(Order(gs), Draw(Pots(gs, Order(gs)), a), cost))
  {
    OrderFacts(gs);
    DrawBounds(Pots(gs, Order(gs)), a);
    RefundsWithin(Order(gs), Draw(Pots(gs, Order(gs)), a), cost);
  }

  lemma RestoredAre(gs: seq<Grant>, back: seq<Allocation>, now: int, target: seq<Grant>)
    requires NotNegative(back) && HasRoom(gs, back) && |target| == |gs|
    requires forall i | 0 <= i < |gs| :: Credited(gs[i], AmountFor(back, i), now) == target[i]
    ensures RestoreAll(gs, back, now) == target
  {
    forall i | 0 <= i < |gs| ensures RestoreAll(gs, back, now)[i] == target[i] {
      RestoreAllAt(gs, back, now, i);
    }
  }

  lemma RefundLeavesConsumption(gs: seq<Grant>, a: int, cost: int, now: int)
    requires 0 <= a && 0 <= cost && Fresh(gs, now)
    ensures var held := GrantDraws(gs, a);
            RestoreAll(DebitAll(gs, held), Refunds(held, Draw(Amounts(held), cost)), now)
            == DebitAll(gs, GrantDraws(gs, Min(a, cost)))
  {
    var back := HeldRefunds(Order(gs), Draw(Pots(gs, Order(gs)), a), cost);
    var debited, target := DebitAll(gs, GrantDraws(gs, a)), DebitAll(gs, GrantDraws(gs, Min(a, cost)));
    HeldBackNotNegative(gs, a, cost);
    forall i | 0 <= i < |gs|
      ensures debited[i].remaining + AmountFor(back, i) <= debited[i].original
      ensures Credited(debited[i], AmountFor(back, i), now) == target[i]
    {
      RefundLeavesGrant(gs, a, cost, now, i, debited, back);
    }
    RestoredAre(debited, back, now, target);
  }

  /** The part of a payment order that can still pay. */
  function StillUsable(gs: seq<Grant>, order: seq<nat>): (r: seq<nat>)
    requires Indices(gs, order)
    ensures Indices(gs, r)
    ensures forall k | 0 <= k < |r| :: r[k] in order
  {
    if order == [] then []
    else
      var rest := StillUsable(gs, order[1..]);
      assert forall k | 0 <= k < |rest| :: rest[k] in order[1..];
      if Usable(gs[order[0]]) then [order[0]] + rest else rest
  }

  lemma {:induction false} StillUsableInsert(gs: seq<Grant>, gs': seq<Grant>, order: seq<nat>, x: nat)
    requires |gs| == |gs'| && Indices(gs, order) && x < |gs|
    requires forall i | 0 <= i < |gs| :: gs'[i].expiresAt == gs[i].expiresAt
    requires SortedByExpiry(gs, order)
    ensures StillUsable(gs', InsertByExpiry(gs, order, x))
            == if Usable(gs'[x]) then InsertByExpiry(gs', StillUsable(gs', order), x) else StillUsable(gs', order)
  {
    var r := InsertByExpiry(gs, order, x);
    if order != [] {
      if gs[order[0]].expiresAt <= gs[x].expiresAt {
        StillUsableInsert(gs, gs', order[1..], x);
        assert r[1..] == InsertByExpiry(gs, order[1..], x);
      } else {
        var kept := StillUsable(gs', order);
        assert r[1..] == order;
        if kept != [] {
          assert kept[0] in order;
        }
      }
    }
  }

  /** A later state of the same grants, in which no grant became usable. */
  ghost predicate LaterState(gs: seq<Grant>, gs': seq<Grant>) {
    && |gs| == |gs'|
    && forall i | 0 <= i < |gs| :: gs'[i].expiresAt == gs[i].expiresAt && (Usable(gs'[i]) ==> Usable(gs[i]))
  }

  lemma OrderAfterStep(gs: seq<Grant>, gs': seq<Grant>, n: nat, before: seq<nat>)
    requires LaterState(gs, gs') && n < |gs| && before == OrderUpTo(gs, n)
    requires OrderUpTo(gs', n) == StillUsable(gs', before)
    ensures OrderUpTo(gs', n + 1) == StillUsable(gs', OrderUpTo(gs, n + 1))
  {
    if Usable(gs[n]) {
      OrderUpToSorted(gs, n);
      StillUsableInsert(gs, gs', before, n);
    }
  }

  lemma {:induction false} OrderAfterUpTo(gs: seq<Grant>, gs': seq<Grant>, n: nat)
    requires LaterState(gs, gs') && n <= |gs|
    ensures OrderUpTo(gs', n) == StillUsable(gs', OrderUpTo(gs, n))
  {
    if n > 0 {
      OrderAfterUpTo(gs, gs', n - 1);
      OrderAfterStep(gs, gs', n - 1, OrderUpTo(gs, n - 1));
    }
  }

  lemma {:induction false} SkipEmpty(gs: seq<Grant>, order: seq<nat>, amount: int)
    requires Indices(gs, order) && 0 <= amount
    requires forall k | 0 <= k < |order| :: !Usable(gs[order[k]]) ==> gs[order[k]].remaining == 0
    requires forall k | 0 <= k < |order| :: 0 <= gs[order[k]].remaining
    ensures var kept := StillUsable(gs, order);
            Allocations(kept, Draw(Pots(gs, kept), amount)) == Allocations(order, Draw(Pots(gs, order), amount))
  {
    if order != [] {
      var kept := StillUsable(gs, order);
      var rest := StillUsable(gs, order[1..]);
      var first := Min(gs[order[0]].remaining, amount);
      assert Pots(gs, order)[1..] == Pots(gs, order[1..]);
      SkipEmpty(gs, order[1..], amount - first);
      AllocationsUnfold(order, Draw(Pots(gs, order), amount));
      if Usable(gs[order[0]]) {
        assert kept[1..] == rest && Pots(gs, kept)[1..] == Pots(gs, rest);
        AllocationsUnfold(kept, Draw(Pots(gs, kept), amount));
      }
    }
  }

  lemma AfterDebit(gs: seq<Grant>, a: int, i: nat)
    requires 0 <= a && GrantsInBounds(gs) && i < |gs|
    ensures var g := DebitAll(gs, GrantDraws(gs, a))[i];
            && g == Debited(gs[i], AmountFor(GrantDraws(gs, a), i))
            && g.expiresAt == gs[i].expiresAt
            && (Usable(g) ==> Usable(gs[i]))
            && (Usable(gs[i]) && !Usable(g) ==> g.remaining == 0)
            && 0 <= g.remaining <= g.original
  {
    GrantDrawFacts(gs, a);
    DebitAllAt(gs, GrantDraws(gs, a), i);
  }

  lemma PotsAfterDebit(gs: seq<Grant>, a: int, k: nat)
    requires 0 <= a && GrantsInBounds(gs) && k < |Order(gs)|
    ensures var g := DebitAll(gs, GrantDraws(gs, a))[Order(gs)[k]];
            && g.remaining == Pots(gs, Order(gs))[k] - Draw(Pots(gs, Order(gs)), a)[k]
            && 0 <= g.remaining
            && (!Usable(g) ==> g.remaining == 0)
  {
    var order := Order(gs);
    OrderAt(gs, k);
    OrderFacts(gs);
    DrawBounds(Pots(gs, order), a);
    AllocationFor(order, Draw(Pots(gs, order), a), k);
    AfterDebit(gs, a, order[k]);
  }

  lemma DebitOrder(gs: seq<Grant>, a: int)
    requires 0 <= a && GrantsInBounds(gs)
    ensures var gs1 := DebitAll(gs, GrantDraws(gs, a));
            Order(gs1) == StillUsable(gs1, Order(gs))
  {
    var gs1 := DebitAll(gs, GrantDraws(gs, a));
    forall i | 0 <= i < |gs|
      ensures gs1[i].expiresAt == gs[i].expiresAt && (Usable(gs1[i]) ==> Usable(gs[i]))
    {
      AfterDebit(gs, a, i);
    }
    OrderAfterUpTo(gs, gs1, |gs|);
  }

  /** What a draw leaves in the k-th grant of the payment order. */
  predicate LeftIn(g: Grant, pot: int, drawn: int) {
    g.remaining == pot - drawn && 0 <= g.remaining && (!Usable(g) ==> g.remaining == 0)
  }

  /** Grants left after a draw pay a second amount as the longer draw would have. */
  lemma SecondDraw(gs: seq<Grant>, a: int, b: int)
    requires 0 <= a && 0 <= b && GrantsInBounds(gs)
    ensures var gs1 := DebitAll(gs, GrantDraws(gs, a));
            GrantDraws(gs1, b)
            == Allocations(Order(gs), Draw(Less(Pots(gs, Order(gs)), Draw(Pots(gs, Order(gs)), a)), b))
  {
    var order, gs1 := Order(gs), DebitAll(gs, GrantDraws(gs, a));
    forall k | 0 <= k < |order| ensures LeftIn(gs1[order[k]], Pots(gs, order)[k], Draw(Pots(gs, order), a)[k]) {
      PotsAfterDebit(gs, a, k);
    }
    DebitOrder(gs, a);
    DrawLeft(gs1, order, Pots(gs, order), Draw(Pots(gs, order), a), b);
  }

  lemma DrawLeft(gs1: seq<Grant>, order: seq<nat>, pots: seq<int>, drawn: seq<int>, b: int)
    requires Indices(gs1, order) && |pots| == |drawn| == |order| && 0 <= b && Order(gs1) == StillUsable(gs1, order)
    requires forall k | 0 <= k < |order| :: LeftIn(gs1[order[k]], pots[k], drawn[k])
    ensures GrantDraws(gs1, b) == Allocations(order, Draw(Less(pots, drawn), b))
  {
    SkipEmpty(gs1, order, b);
    assert Pots(gs1, order) == Less(pots, drawn);
  }

  lemma OrderedDraws(gs: seq<Grant>, a: int, b: int)
    requires 0 <= a && 0 <= b
    ensures var pots := Pots(gs, Order(gs));
            && DistinctIndices(Order(gs)) && NonNegative(pots)
            && NonNegative(Draw(pots, a)) && NonNegative(Draw(Less(pots, Draw(pots, a)), b))
            && NonNegative(Draw(pots, a + b))
            && AddUp(Draw(pots, a), Draw(Less(pots, Draw(pots, a)), b), Draw(pots, a + b))
  {
    var pots := Pots(gs, Order(gs));
    OrderFacts(gs);
    DrawBounds(pots, a);
    DrawBounds(Less(pots, Draw(pots, a)), b);
    DrawBounds(pots, a + b);
    DrawTwice(pots, a, b);
  }

  /** What the two draws take together, from each grant and in total. */
  lemma TwoDraws(gs: seq<Grant>, a: int, b: int, i: nat)
    requires 0 <= a && 0 <= b && GrantsInBounds(gs) && i < |gs|
    ensures var second := GrantDraws(DebitAll(gs, GrantDraws(gs, a)), b);
            AmountFor(GrantDraws(gs, a), i) + AmountFor(second, i) == AmountFor(GrantDraws(gs, a + b), i)
  {
    var order := Order(gs);
    var pots := Pots(gs, order);
    OrderedDraws(gs, a, b);
    SecondDraw(gs, a, b);
    DrawnFor(order, Draw(pots, a), i);
    DrawnFor(order, Draw(Less(pots, Draw(pots, a)), b), i);
    DrawnFor(order, Draw(pots, a + b), i);
  }

  /** What an allocation takes from a grant is its draw, or nothing if it is not in the order. */
  lemma DrawnFor(order: seq<nat>, draws: seq<int>, i: nat)
    requires |order| == |draws| && NonNegative(draws) && DistinctIndices(order)
    ensures forall k | 0 <= k < |order| && order[k] == i :: AmountFor(Allocations(order, draws), i) == draws[k]
    ensures i !in order ==> AmountFor(Allocations(order, draws), i) == 0
  {
    if i in order {
      var k :| 0 <= k < |order| && order[k] == i;
      AllocationFor(order, draws, k);
    } else {
      AllocationFacts(order, draws);
      NotAllocated(Allocations(order, draws), order, i);
    }
  }

  lemma TwoDrawsSum(gs: seq<Grant>, a: int, b: int)
    requires 0 <= a && 0 <= b && GrantsInBounds(gs)
    ensures var second := GrantDraws(DebitAll(gs, GrantDraws(gs, a)), b);
            SumAllocations(GrantDraws(gs, a)) + SumAllocations(second) == SumAllocations(GrantDraws(gs, a + b))
  {
    var order := Order(gs);
    var pots := Pots(gs, order);
    var first, second := Draw(pots, a), Draw(Less(pots, Draw(pots, a)), b);
    OrderedDraws(gs, a, b);
    SecondDraw(gs, a, b);
    AllocationSum(order, first);
    AllocationSum(order, second);
    AllocationSum(order, Draw(pots, a + b));
    SumAdd(first, second, Draw(pots, a + b));
  }

  lemma TwoDebits(gs: seq<Grant>, a: int, b: int)
    requires 0 <= a && 0 <= b && GrantsInBounds(gs)
    ensures var gs1 := DebitAll(gs, GrantDraws(gs, a));
            DebitAll(gs1, GrantDraws(gs1, b)) == DebitAll(gs, GrantDraws(gs, a + b))
  {
    var gs1 := DebitAll(gs, GrantDraws(gs, a));
    forall i | 0 <= i < |gs|
      ensures DebitAll(gs1, GrantDraws(gs1, b))[i] == DebitAll(gs, GrantDraws(gs, a + b))[i]
    {
      TwoDebitsAt(gs, a, b, i);
    }
  }

  lemma TwoDebitsAt(gs: seq<Grant>, a: int, b: int, i: nat)
    requires 0 <= a && 0 <= b && GrantsInBounds(gs) && i < |gs|
    ensures var gs1 := DebitAll(gs, GrantDraws(gs, a));
            DebitAll(gs1, GrantDraws(gs1, b))[i] == DebitAll(gs, GrantDraws(gs, a + b))[i]
  {
    var gs1 := DebitAll(gs, GrantDraws(gs, a));
    TwoDraws(gs, a, b, i);
    GrantDrawFacts(gs, a);
    AfterDebit(gs, a, i);
    AfterDebit(gs, a + b, i);
    GrantDrawFacts(gs1, b);
    DebitAllAt(gs1, GrantDraws(gs1, b), i);
  }

  // ---- The refinement ----

  lemma FreshAfterDebit(gs: seq<Grant>, a: int, now: int)
    requires 0 <= a && Fresh(gs, now)
    ensures ExpireGrants(DebitAll(gs, GrantDraws(gs, a)), now) == DebitAll(gs, GrantDraws(gs, a))
  {
    var gs1 := DebitAll(gs, GrantDraws(gs, a));
    GrantDrawFacts(gs, a);
    forall i | 0 <= i < |gs| ensures ExpireGrant(gs1[i], now) == gs1[i] {
      DebitAllAt(gs, GrantDraws(gs, a), i);
    }
  }

  /** What one allocation of an amount takes in total from grants. */
  lemma DrawTotal(gs: seq<Grant>, a: int)
    requires 0 <= a
    ensures SumAllocations(GrantDraws(gs, a)) == Min(a, SumOf(UsableAmount, gs))
  {
    GrantDrawFacts(gs, a);
  }

  lemma ConsumedTotal(gs: seq<Grant>, a: int, cost: int)
    requires 0 <= a && 0 <= cost
    ensures Sum(Draw(Amounts(GrantDraws(gs, a)), cost)) == Min(Min(a, cost), SumOf(UsableAmount, gs))
  {
    var order := Order(gs);
    var pots := Pots(gs, order);
    OrderFacts(gs);
    DrawBounds(pots, a);
    DrawBounds(pots, Min(a, cost));
    DrawOfDraw(pots, a, cost);
    ConsumedSum(order, Draw(pots, a), cost);
  }

  /** How an allocation comes out, given what it would draw from the grants. */
  ghost predicate Outcome(f: Funds, gs: seq<Grant>, amount: int, a: seq<Allocation>, f': Funds,
                          r: Result<Split, FundsError>)
  {
    var left := amount - SumAllocations(a);
    if f.balance < left then r.Err? else f' == Funds(f.balance - left, DebitAll(gs, a)) && r == Ok(Split(left, a))
  }

  lemma AllocateOn(f: Funds, gs: seq<Grant>, amount: int, now: int)
    requires gs == ExpireGrants(f.grants, now)
    ensures Outcome(f, gs, amount, GrantDraws(gs, amount), Allocate(f, amount, now).0, Allocate(f, amount, now).1)
  {
  }

  lemma ChargeUnfold(f1: Funds, held: Split, cost: int, now: int, restored: seq<Grant>, used: int)
    requires used == Sum(Draw(Amounts(held.allocations), cost)) && cost - used <= held.wallet
    requires restored == RestoreAll(f1.grants, Refunds(held.allocations, Draw(Amounts(held.allocations), cost)), now)
    ensures ChargeHeld(f1, held, cost, now)
            == (Funds(f1.balance + held.wallet - (cost - used), restored), Ok(Charge(cost - used, used)))
  {
  }

  lemma ExpiredIsFresh(gs: seq<Grant>, now: int)
    requires GrantsInBounds(gs)
    ensures Fresh(ExpireGrants(gs, now), now)
  {
  }

  /** A cost within the hold: what is charged is what a direct allocation would have taken. */
  lemma ChargeWithinHold(f: Funds, gs: seq<Grant>, a: int, cost: int, now: int, f1: Funds, held: Split)
    requires 0 <= cost <= a && Fresh(gs, now) && Outcome(f, gs, a, GrantDraws(gs, a), f1, Ok(held))
    ensures var kept := GrantDraws(gs, cost);
            ChargeHeld(f1, held, cost, now)
            == (Funds(f.balance - (cost - SumAllocations(kept)), DebitAll(gs, kept)),
                Ok(Charge(cost - SumAllocations(kept), SumAllocations(kept))))
  {
    var kept := GrantDraws(gs, cost);
    DrawTotal(gs, a);
    DrawTotal(gs, cost);
    ConsumedTotal(gs, a, cost);
    RefundLeavesConsumption(gs, a, cost, now);
    ChargeUnfold(f1, held, cost, now, DebitAll(gs, kept), SumAllocations(kept));
  }

  /** If more can be held, the smaller cost can be allocated. */
  lemma LessIsAllocated(f: Funds, gs: seq<Grant>, a: int, cost: int, now: int, f1: Funds, held: Split, fd: Funds,
                        direct: Result<Split, FundsError>)
    requires 0 <= cost <= a && 0 <= f.balance && Fresh(gs, now)
    requires Outcome(f, gs, a, GrantDraws(gs, a), f1, Ok(held))
             && Outcome(f, gs, cost, GrantDraws(gs, cost), fd, direct)
    ensures direct.Ok?
            && fd == Funds(f.balance - (cost - SumAllocations(GrantDraws(gs, cost))),
                           DebitAll(gs, GrantDraws(gs, cost)))
    ensures direct.value == Split(cost - SumAllocations(GrantDraws(gs, cost)), GrantDraws(gs, cost))
  {
    UsableCreditNotNegative(gs);
    DrawTotal(gs, a);
    DrawTotal(gs, cost);
  }

  /** A cost beyond the hold uses up the hold entirely, and leaves the grants as they are. */
  lemma HoldIsUsedUp(f: Funds, gs: seq<Grant>, a: int, cost: int, now: int, f1: Funds, held: Split)
    requires 0 <= a < cost && Fresh(gs, now) && Outcome(f, gs, a, GrantDraws(gs, a), f1, Ok(held))
    ensures var consumed := Draw(Amounts(held.allocations), cost);
            && Sum(consumed) == SumAllocations(held.allocations) == a - held.wallet
            && RestoreAll(f1.grants, Refunds(held.allocations, consumed), now) == f1.grants
  {
    DrawTotal(gs, a);
    ConsumedTotal(gs, a, cost);
    RefundLeavesConsumption(gs, a, cost, now);
    assert Min(a, cost) == a;
  }

  lemma MissingDraws(gs: seq<Grant>, a: int, cost: int)
    requires 0 <= a < cost && GrantsInBounds(gs)
    ensures var d2 := GrantDraws(DebitAll(gs, GrantDraws(gs, a)), cost - a);
            && DebitAll(DebitAll(gs, GrantDraws(gs, a)), d2) == DebitAll(gs, GrantDraws(gs, cost))
            && SumAllocations(GrantDraws(gs, a)) + SumAllocations(d2) == SumAllocations(GrantDraws(gs, cost))
  {
    TwoDebits(gs, a, cost - a);
    TwoDrawsSum(gs, a, cost - a);
  }

  /** What is missing is then allocated from the very grants a direct allocation would go on with. */
  lemma MissingIsAllocated(f: Funds, gs: seq<Grant>, a: int, cost: int, now: int, f1: Funds, held: Split, f2: Funds,
                           extra: Result<Split, FundsError>) returns (d2: seq<Allocation>)
    requires 0 <= a < cost && Fresh(gs, now) && Outcome(f, gs, a, GrantDraws(gs, a), f1, Ok(held))
    requires (f2, extra) == Allocate(f1, cost - a, now)
    ensures Outcome(f1, DebitAll(gs, GrantDraws(gs, a)), cost - a, d2, f2, extra)
    ensures DebitAll(DebitAll(gs, GrantDraws(gs, a)), d2) == DebitAll(gs, GrantDraws(gs, cost))
    ensures SumAllocations(GrantDraws(gs, a)) + SumAllocations(d2) == SumAllocations(GrantDraws(gs, cost))
  {
    var gs1 := DebitAll(gs, GrantDraws(gs, a));
    d2 := GrantDraws(gs1, cost - a);
    MissingDraws(gs, a, cost);
    FreshAfterDebit(gs, a, now);
    AllocateOn(f1, gs1, cost - a, now);
  }

  lemma OverrunUnfold(f1: Funds, held: Split, cost: int, missing: int, now: int,
                      f2: Funds, extra: Result<Split, FundsError>)
    requires var consumed := Draw(Amounts(held.allocations), cost);
             && RestoreAll(f1.grants, Refunds(held.allocations, consumed), now) == f1.grants
             && Sum(consumed) == SumAllocations(held.allocations)
             && cost - Sum(consumed) - held.wallet == missing
    requires 0 < missing && Allocate(f1, missing, now) == (f2, extra)
    ensures ChargeHeld(f1, held, cost, now)
            == (f2, match extra
                    case Ok(split) => Ok(Charge(held.wallet + split.wallet,
                                                SumAllocations(held.allocations) + SumAllocations(split.allocations)))
                    case Err(e) => Err(e))
  {
    var consumed := Draw(Amounts(held.allocations), cost);
    assert Funds(f1.balance + held.wallet - held.wallet, f1.grants) == f1;
  }

  /** Two allocations one after the other come out as one of the total. */
  lemma TwoOutcomes(f: Funds, gs: seq<Grant>, a: int, total: int, d1: seq<Allocation>, d2: seq<Allocation>,
                    whole: seq<Allocation>, f1: Funds, first: Split, f2: Funds, second: Result<Split, FundsError>,
                    fd: Funds, direct: Result<Split, FundsError>)
    requires Outcome(f, gs, a, d1, f1, Ok(first)) && Outcome(f, gs, total, whole, fd, direct)
    requires Outcome(f1, DebitAll(gs, d1), total - a, d2, f2, second)
    requires DebitAll(DebitAll(gs, d1), d2) == DebitAll(gs, whole)
    requires SumAllocations(d1) + SumAllocations(d2) == SumAllocations(whole)
    ensures second.Ok? <==> direct.Ok?
    ensures direct.Ok? ==>
              && f2 == fd
              && first.wallet + second.value.wallet == direct.value.wallet
              && SumAllocations(first.allocations) + SumAllocations(second.value.allocations)
                 == SumAllocations(direct.value.allocations)
  {
  }

  lemma ChargeBeyondHold(f: Funds, gs: seq<Grant>, a: int, cost: int, now: int, f1: Funds, held: Split, fd: Funds,
                         direct: Result<Split, FundsError>)
    requires 0 <= a < cost && Fresh(gs, now)
    requires Outcome(f, gs, a, GrantDraws(gs, a), f1, Ok(held))
             && Outcome(f, gs, cost, GrantDraws(gs, cost), fd, direct)
    ensures SameAsDirect(ChargeHeld(f1, held, cost, now), fd, direct)
  {
    var (f2, extra) := Allocate(f1, cost - a, now);
    var d2 := MissingIsAllocated(f, gs, a, cost, now, f1, held, f2, extra);
    TwoOutcomes(f, gs, a, cost, GrantDraws(gs, a), d2, GrantDraws(gs, cost), f1, held, f2, extra, fd, direct);
    HoldIsUsedUp(f, gs, a, cost, now, f1, held);
    OverrunUnfold(f1, held, cost, cost - a, now, f2, extra);
  }

  /** A charge came out as a direct allocation did: the same funds, the same from wallet and credit. */
  ghost predicate SameAsDirect(r: (Funds, Result<Charge, FundsError>), fd: Funds, direct: Result<Split, FundsError>) {
    && (r.1.Ok? <==> direct.Ok?)
    && (direct.Ok? ==> r.0 == fd && r.1.value == Charge(direct.value.wallet, SumAllocations(direct.value.allocations)))
  }

  lemma ChargeIsDirect(f: Funds, gs: seq<Grant>, a: int, cost: int, now: int, f1: Funds, held: Split, fd: Funds,
                       direct: Result<Split, FundsError>)
    requires 0 <= a && 0 <= cost && 0 <= f.balance && Fresh(gs, now)
    requires Outcome(f, gs, a, GrantDraws(gs, a), f1, Ok(held))
             && Outcome(f, gs, cost, GrantDraws(gs, cost), fd, direct)
    ensures SameAsDirect(ChargeHeld(f1, held, cost, now), fd, direct)
  {
    if cost <= a {
      ChargeWithinHold(f, gs, a, cost, now, f1, held);
      LessIsAllocated(f, gs, a, cost, now, f1, held, fd, direct);
    } else {
      ChargeBeyondHold(f, gs, a, cost, now, f1, held, fd, direct);
    }
  }

  /** For every estimate a that can be held and every cost, below, equal to or above it:
      charging the held funds succeeds exactly when charging directly does, takes the same from
      wallet and credit, and leaves the same balance and the same grants. */
  lemma HoldThenChargeIsDirectCharge(f: Funds, a: int, cost: int, now: int)
    requires 0 <= a && 0 <= cost && 0 <= f.balance && GrantsInBounds(f.grants)
    requires Allocate(f, a, now).1.Ok?
    ensures var (f1, held) := Allocate(f, a, now);
            var (f2, charged) := ChargeHeld(f1, held.value, cost, now);
            var (fd, direct) := Allocate(f, cost, now);
            && (charged.Ok? <==> direct.Ok?)
            && (direct.Ok? ==>
                  && f2 == fd
                  && charged.value == Charge(direct.value.wallet, SumAllocations(direct.value.allocations)))
  {
    var gs := ExpireGrants(f.grants, now);
    ExpiredIsFresh(f.grants, now);
    AllocateOn(f, gs, a, now);
    AllocateOn(f, gs, cost, now);
    var (f1, held) := Allocate(f, a, now);
    var (fd, direct) := Allocate(f, cost, now);
    ChargeIsDirect(f, gs, a, cost, now, f1, held.value, fd, direct);
  }
}
