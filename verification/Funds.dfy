/** Wallet money and expiring credit grants of one user: allocation, rollback and refund. */
module Funds {
  import opened Common
  import opened Draws

  datatype GrantStatus = Active | Depleted | Expired

  datatype Grant = Grant(packId: string, original: int, remaining: int, expiresAt: int, status: GrantStatus)

  datatype Allocation = Allocation(grantId: nat, amount: int)

  /** Grants stand in the order they were created; a grant's id is its position. */
  datatype Funds = Funds(balance: int, grants: seq<Grant>)

  /** What an allocation took from the wallet and from the grants. */
  datatype Split = Split(wallet: int, allocations: seq<Allocation>)

  function Remaining(g: Grant): int { g.remaining }

  function AllocationAmount(a: Allocation): int { a.amount }

  function SumAllocations(a: seq<Allocation>): int { SumOf(AllocationAmount, a) }

  // ---- Expiry ----

  function ExpireGrant(g: Grant, now: int): Grant {
    if g.status == Active && g.expiresAt <= now then g.(status := Expired) else g
  }

  function ExpireGrants(gs: seq<Grant>, now: int): (r: seq<Grant>)
    ensures |r| == |gs|
    ensures forall i | 0 <= i < |gs| :: r[i] == ExpireGrant(gs[i], now)
  {
    seq(|gs|, i requires 0 <= i < |gs| => ExpireGrant(gs[i], now))
  }

  // ---- The order in which grants pay ----

  predicate Usable(g: Grant) {
    g.status == Active && 0 < g.remaining
  }

  ghost predicate Indices(gs: seq<Grant>, order: seq<nat>) {
    forall k | 0 <= k < |order| :: order[k] < |gs|
  }

  /** Stable insertion by expiry: behind every grant that expires no later. */
  function InsertByExpiry(gs: seq<Grant>, order: seq<nat>, x: nat): (r: seq<nat>)
    requires Indices(gs, order) && x < |gs|
    ensures Indices(gs, r)
  {
    if order == [] then [x]
    else if gs[order[0]].expiresAt <= gs[x].expiresAt then [order[0]] + InsertByExpiry(gs, order[1..], x)
    else [x] + order
  }

  lemma {:induction false} InsertMembers(gs: seq<Grant>, order: seq<nat>, x: nat, i: nat)
    requires Indices(gs, order) && x < |gs|
    ensures i in InsertByExpiry(gs, order, x) <==> i == x || i in order
  {
    if order != [] && gs[order[0]].expiresAt <= gs[x].expiresAt {
      InsertMembers(gs, order[1..], x, i);
      assert order == [order[0]] + order[1..];
    }
  }

  /** The usable grants among the first n, earliest expiry first, older grant first on a tie. */
  function OrderUpTo(gs: seq<Grant>, n: nat): (r: seq<nat>)
    requires n <= |gs|
    ensures Indices(gs, r)
  {
    if n == 0 then []
    else
      var before := OrderUpTo(gs, n - 1);
      if Usable(gs[n - 1]) then InsertByExpiry(gs, before, n - 1) else before
  }

  function Order(gs: seq<Grant>): (r: seq<nat>)
    ensures Indices(gs, r)
  {
    OrderUpTo(gs, |gs|)
  }

  /** The payment order holds exactly the usable grants. */
  lemma {:induction false} OrderMembers(gs: seq<Grant>, n: nat, i: nat)
    requires n <= |gs|
    ensures i in OrderUpTo(gs, n) <==> i < n && Usable(gs[i])
  {
    if n > 0 {
      OrderMembers(gs, n - 1, i);
      if Usable(gs[n - 1]) {
        InsertMembers(gs, OrderUpTo(gs, n - 1), n - 1, i);
      }
    }
  }

  lemma OrderAt(gs: seq<Grant>, k: nat)
    requires k < |Order(gs)|
    ensures Usable(gs[Order(gs)[k]])
  {
    assert Order(gs)[k] in Order(gs);
    OrderMembers(gs, |gs|, Order(gs)[k]);
  }

  function Pots(gs: seq<Grant>, order: seq<nat>): (pots: seq<int>)
    requires Indices(gs, order)
    ensures |pots| == |order|
    ensures forall k | 0 <= k < |order| :: pots[k] == gs[order[k]].remaining
  {
    seq(|order|, k requires 0 <= k < |order| => gs[order[k]].remaining)
  }

  // ---- Debit, refund, allocation ----

  /** The allocation records of a draw; a grant that gives nothing gets no record. */
  function Allocations(order: seq<nat>, draws: seq<int>): seq<Allocation>
    requires |order| == |draws|
  {
    if order == [] then []
    else (if draws[0] > 0 then [Allocation(order[0], draws[0])] else []) + Allocations(order[1..], draws[1..])
  }

  function Debit(g: Grant, amount: int): Grant {
    g.(remaining := g.remaining - amount, status := if g.remaining == amount then Depleted else Active)
  }

  function DebitAll(gs: seq<Grant>, a: seq<Allocation>): (r: seq<Grant>)
    ensures |r| == |gs|
    decreases a
  {
    if a == [] then gs
    else if a[0].grantId < |gs| then
      DebitAll(gs[a[0].grantId := Debit(gs[a[0].grantId], a[0].amount)], a[1..])
    else DebitAll(gs, a[1..])
  }

  function StatusAt(g: Grant, now: int): GrantStatus {
    if g.expiresAt <= now then Expired else Active
  }

  function Credit(g: Grant, amount: int, now: int): Grant {
    g.(remaining := Min(g.original, g.remaining + amount), status := StatusAt(g, now))
  }

  function RestoreGrant(gs: seq<Grant>, grantId: nat, amount: int, now: int): (r: seq<Grant>)
    ensures |r| == |gs|
  {
    if amount <= 0 || grantId >= |gs| then gs
    else gs[grantId := Credit(gs[grantId], amount, now)]
  }

  function RestoreAll(gs: seq<Grant>, a: seq<Allocation>, now: int): (r: seq<Grant>)
    ensures |r| == |gs|
    decreases a
  {
    if a == [] then gs
    else RestoreAll(RestoreGrant(gs, a[0].grantId, a[0].amount, now), a[1..], now)
  }

  datatype FundsError = InsufficientBalance

  /** What an allocation of amount takes from each usable grant, in payment order. */
  function GrantDraws(gs: seq<Grant>, amount: int): (a: seq<Allocation>) {
    Allocations(Order(gs), Draw(Pots(gs, Order(gs)), amount))
  }

  /** Pay amount from grants, earliest expiry first, and the rest from the wallet. When the
      wallet is short, put back what the grants gave. */
  function Allocate(f: Funds, amount: int, now: int): (Funds, Result<Split, FundsError>) {
    var gs := ExpireGrants(f.grants, now);
    var a := GrantDraws(gs, amount);
    var left := amount - SumAllocations(a);
    if f.balance < left then
      (Funds(f.balance, RestoreAll(DebitAll(gs, a), a, now)), Err(InsufficientBalance))
    else
      (Funds(f.balance - left, DebitAll(gs, a)), Ok(Split(left, a)))
  }

  function Amounts(a: seq<Allocation>): (r: seq<int>)
    ensures |r| == |a| && forall k | 0 <= k < |a| :: r[k] == a[k].amount
  {
    seq(|a|, k requires 0 <= k < |a| => a[k].amount)
  }

  /** The unconsumed part of each held allocation. */
  function Refunds(a: seq<Allocation>, consumed: seq<int>): (r: seq<Allocation>)
    requires |a| == |consumed|
    ensures |r| == |a|
    ensures forall k | 0 <= k < |a| :: r[k] == Allocation(a[k].grantId, a[k].amount - consumed[k])
  {
    seq(|a|, k requires 0 <= k < |a| => Allocation(a[k].grantId, a[k].amount - consumed[k]))
  }

  lemma AllocationCons(first: Allocation, rest: seq<Allocation>, i: nat)
    ensures var a := [first] + rest;
            && SumAllocations(a) == first.amount + SumAllocations(rest)
            && AmountFor(a, i) == (if first.grantId == i then first.amount else 0) + AmountFor(rest, i)
            && (NotNegative(a) <==> 0 <= first.amount && NotNegative(rest))
  {
    var a := [first] + rest;
    assert a[1..] == rest && a[0] == first;
    assert forall k | 0 <= k < |rest| :: a[k + 1] == rest[k];
  }

  lemma RefundsOf(first: Allocation, rest: seq<Allocation>, x: int, taken: seq<int>)
    requires |taken| == |rest|
    ensures Refunds([first] + rest, [x] + taken) == [Allocation(first.grantId, first.amount - x)] + Refunds(rest, taken)
    ensures Sum([x] + taken) == x + Sum(taken)
  {
    assert ([x] + taken)[1..] == taken;
  }

  lemma RefundsCons(first: Allocation, rest: seq<Allocation>, cost: int)
    ensures var a := [first] + rest;
            var x := Min(first.amount, cost);
            && Sum(Draw(Amounts(a), cost)) == x + Sum(Draw(Amounts(rest), cost - x))
            && Refunds(a, Draw(Amounts(a), cost))
               == [Allocation(first.grantId, first.amount - x)] + Refunds(rest, Draw(Amounts(rest), cost - x))
  {
    var x := Min(first.amount, cost);
    assert Amounts([first] + rest)[1..] == Amounts(rest);
    DrawCons(Amounts([first] + rest), cost, cost - x);
    RefundsOf(first, rest, x, Draw(Amounts(rest), cost - x));
  }

  /** What a charge took from wallet and credit. */
  datatype Charge = Charge(wallet: int, credit: int)

  /** Charge cost against funds already held: consume held grant amounts in their order, then
      the held wallet amount, give the rest back, and allocate afresh what is still missing. */
  function ChargeHeld(f: Funds, held: Split, cost: int, now: int): (Funds, Result<Charge, FundsError>) {
    var consumed := Draw(Amounts(held.allocations), cost);
    var grants := RestoreAll(f.grants, Refunds(held.allocations, consumed), now);
    var afterGrants := cost - Sum(consumed);
    var wallet := Min(held.wallet, afterGrants);
    var f1 := Funds(f.balance + held.wallet - wallet, grants);
    var missing := afterGrants - wallet;
    if missing > 0 then
      var (f2, extra) := Allocate(f1, missing, now);
      match extra
      case Ok(split) => (f2, Ok(Charge(wallet + split.wallet, Sum(consumed) + SumAllocations(split.allocations))))
      case Err(e) => (f2, Err(e))
    else
      (f1, Ok(Charge(wallet, Sum(consumed))))
  }

  /** Credit that can be spent at a moment. */
  function UsableAmount(g: Grant): int { if Usable(g) then g.remaining else 0 }

  function UsableCredit(gs: seq<Grant>, now: int): int {
    SumOf(UsableAmount, ExpireGrants(gs, now))
  }

  // ---- How much a list of allocations takes from one grant ----

  function AmountFor(a: seq<Allocation>, i: nat): int {
    if a == [] then 0 else (if a[0].grantId == i then a[0].amount else 0) + AmountFor(a[1..], i)
  }

  ghost predicate Positive(a: seq<Allocation>) {
    forall k | 0 <= k < |a| :: 0 < a[k].amount
  }

  ghost predicate NotNegative(a: seq<Allocation>) {
    forall k | 0 <= k < |a| :: 0 <= a[k].amount
  }

  ghost predicate Within(a: seq<Allocation>, n: nat) {
    forall k | 0 <= k < |a| :: a[k].grantId < n
  }

  ghost predicate DistinctGrants(a: seq<Allocation>) {
    forall j, k | 0 <= j < k < |a| :: a[j].grantId != a[k].grantId
  }

  lemma {:induction false} AmountForNotNegative(a: seq<Allocation>, i: nat)
    requires NotNegative(a)
    ensures 0 <= AmountFor(a, i)
    ensures (forall k | 0 <= k < |a| :: a[k].grantId != i) ==> AmountFor(a, i) == 0
  {
    if a != [] {
      AmountForNotNegative(a[1..], i);
    }
  }

  // ---- Closed forms, grant by grant ----

  /** What DebitAll does to one grant. */
  function Debited(g: Grant, amount: int): Grant {
    if amount > 0 then Debit(g, amount) else g
  }

  lemma {:induction false} DebitAllAt(gs: seq<Grant>, a: seq<Allocation>, i: nat)
    requires Positive(a) && DistinctGrants(a) && i < |gs|
    ensures DebitAll(gs, a)[i] == Debited(gs[i], AmountFor(a, i))
    decreases a
  {
    if a != [] {
      AmountForNotNegative(a[1..], a[0].grantId);
      var gs' := if a[0].grantId < |gs| then gs[a[0].grantId := Debit(gs[a[0].grantId], a[0].amount)] else gs;
      DebitAllAt(gs', a[1..], i);
    }
  }

  /** What RestoreAll does to one grant when the cap at the original amount does not bite. */
  function Credited(g: Grant, amount: int, now: int): Grant {
    if amount > 0 then g.(remaining := g.remaining + amount, status := StatusAt(g, now)) else g
  }

  /** There is room under every grant's original amount for what a list gives back. */
  ghost predicate HasRoom(gs: seq<Grant>, a: seq<Allocation>) {
    forall i | 0 <= i < |gs| :: gs[i].remaining + AmountFor(a, i) <= gs[i].original
  }

  lemma {:induction false} RestoreAllAt(gs: seq<Grant>, a: seq<Allocation>, now: int, i: nat)
    requires NotNegative(a) && HasRoom(gs, a) && i < |gs|
    ensures RestoreAll(gs, a, now)[i] == Credited(gs[i], AmountFor(a, i), now)
    decreases a
  {
    if a != [] {
      var gs' := RestoreGrant(gs, a[0].grantId, a[0].amount, now);
      forall j | 0 <= j < |gs| ensures gs'[j].remaining + AmountFor(a[1..], j) <= gs'[j].original {
        AmountForNotNegative(a[1..], j);
        assert gs[j].remaining + AmountFor(a, j) <= gs[j].original;
      }
      AmountForNotNegative(a[1..], i);
      assert gs[i].remaining + AmountFor(a, i) <= gs[i].original;
      RestoreAllAt(gs', a[1..], now, i);
    }
  }

  // ---- Sums over grants ----

  /** Per-grant amounts add up to the amount of the whole list. */
  lemma {:induction false} RemainingAfter(gs: seq<Grant>, gs': seq<Grant>, a: seq<Allocation>)
    requires |gs| == |gs'| && Within(a, |gs|)
    requires forall i | 0 <= i < |gs| :: gs'[i].remaining == gs[i].remaining + AmountFor(a, i)
    ensures SumOf(Remaining, gs') == SumOf(Remaining, gs) + SumAllocations(a)
    decreases a
  {
    if a == [] {
      SameRemaining(gs, gs');
    } else {
      var j := a[0].grantId;
      var g := gs[j].(remaining := gs[j].remaining + a[0].amount);
      SumOfUpdate(Remaining, gs, j, g);
      RemainingAfter(gs[j := g], gs', a[1..]);
    }
  }

  lemma {:induction false} SameRemaining(gs: seq<Grant>, gs': seq<Grant>)
    requires |gs| == |gs'|
    requires forall i | 0 <= i < |gs| :: gs'[i].remaining == gs[i].remaining
    ensures SumOf(Remaining, gs') == SumOf(Remaining, gs)
  {
    if gs != [] {
      SameRemaining(gs[1..], gs'[1..]);
    }
  }

  // ---- Facts about the payment order ----

  ghost predicate SortedByExpiry(gs: seq<Grant>, order: seq<nat>)
    requires Indices(gs, order)
  {
    forall j, k | 0 <= j < k < |order| :: gs[order[j]].expiresAt <= gs[order[k]].expiresAt
  }

  ghost predicate DistinctIndices(order: seq<nat>) {
    forall j, k | 0 <= j < k < |order| :: order[j] != order[k]
  }

  ghost predicate Ordered(gs: seq<Grant>, order: seq<nat>) {
    Indices(gs, order) && SortedByExpiry(gs, order) && DistinctIndices(order)
  }

  lemma {:induction false} InsertSorted(gs: seq<Grant>, order: seq<nat>, x: nat)
    requires Indices(gs, order) && x < |gs| && forall k | 0 <= k < |order| :: order[k] != x
    requires SortedByExpiry(gs, order) && DistinctIndices(order)
    ensures var r := InsertByExpiry(gs, order, x);
            SortedByExpiry(gs, r) && DistinctIndices(r)
  {
    var r := InsertByExpiry(gs, order, x);
    if order != [] {
      var rest := r[1..];
      if gs[order[0]].expiresAt <= gs[x].expiresAt {
        InsertSorted(gs, order[1..], x);
        assert rest == InsertByExpiry(gs, order[1..], x);
        forall k | 0 <= k < |rest| ensures rest[k] != order[0] && gs[order[0]].expiresAt <= gs[rest[k]].expiresAt {
          InsertedElement(gs, order[1..], x, k);
        }
      } else {
        assert rest == order;
      }
    }
  }

  lemma InsertedElement(gs: seq<Grant>, order: seq<nat>, x: nat, k: nat)
    requires Indices(gs, order) && x < |gs| && k < |InsertByExpiry(gs, order, x)|
    ensures InsertByExpiry(gs, order, x)[k] == x
            || exists j :: 0 <= j < |order| && order[j] == InsertByExpiry(gs, order, x)[k]
  {
    var e := InsertByExpiry(gs, order, x)[k];
    assert e in InsertByExpiry(gs, order, x);
    InsertMembers(gs, order, x, e);
  }

  /** The entries of a per-grant row of numbers, in payment order. */
  function Select(w: seq<int>, order: seq<nat>): (r: seq<int>)
    requires forall k | 0 <= k < |order| :: order[k] < |w|
    ensures |r| == |order|
    ensures forall k | 0 <= k < |order| :: r[k] == w[order[k]]
  {
    seq(|order|, k requires 0 <= k < |order| => w[order[k]])
  }

  lemma {:induction false} InsertedSelection(gs: seq<Grant>, w: seq<int>, order: seq<nat>, x: nat)
    requires Indices(gs, order) && x < |gs| == |w|
    ensures Sum(Select(w, InsertByExpiry(gs, order, x))) == Sum(Select(w, order)) + w[x]
  {
    var r := InsertByExpiry(gs, order, x);
    assert Select(w, r)[1..] == Select(w, r[1..]);
    if order != [] {
      assert Select(w, order)[1..] == Select(w, order[1..]);
      if gs[order[0]].expiresAt <= gs[x].expiresAt {
        InsertedSelection(gs, w, order[1..], x);
        assert r[1..] == InsertByExpiry(gs, order[1..], x);
      } else {
        assert r[1..] == order;
      }
    }
  }

  lemma {:induction false} OrderUpToSorted(gs: seq<Grant>, n: nat)
    requires n <= |gs|
    ensures Ordered(gs, OrderUpTo(gs, n))
  {
    if n > 0 {
      OrderBelow(gs, n - 1);
      OrderUnfold(gs, n - 1);
      OrderUpToSorted(gs, n - 1);
      OrderStep(gs, OrderUpTo(gs, n - 1), n - 1, OrderUpTo(gs, n));
    }
  }

  lemma OrderUnfold(gs: seq<Grant>, x: nat)
    requires x < |gs|
    ensures OrderUpTo(gs, x + 1) == if Usable(gs[x]) then InsertByExpiry(gs, OrderUpTo(gs, x), x) else OrderUpTo(gs, x)
  {
  }

  lemma OrderStep(gs: seq<Grant>, before: seq<nat>, x: nat, r: seq<nat>)
    requires Ordered(gs, before) && x < |gs| && forall k | 0 <= k < |before| :: before[k] != x
    requires r == if Usable(gs[x]) then InsertByExpiry(gs, before, x) else before
    ensures Ordered(gs, r)
  {
    if Usable(gs[x]) {
      InsertSorted(gs, before, x);
    }
  }

  lemma OrderBelow(gs: seq<Grant>, n: nat)
    requires n <= |gs|
    ensures forall k | 0 <= k < |OrderUpTo(gs, n)| :: OrderUpTo(gs, n)[k] != n
  {
    var order := OrderUpTo(gs, n);
    forall k | 0 <= k < |order| ensures order[k] != n {
      assert order[k] in order;
      OrderMembers(gs, n, order[k]);
    }
  }

  lemma {:induction false} OrderUpToSum(gs: seq<Grant>, w: seq<int>, n: nat)
    requires n <= |gs| == |w|
    requires forall i | 0 <= i < |gs| :: !Usable(gs[i]) ==> w[i] == 0
    ensures Sum(Select(w, OrderUpTo(gs, n))) == Sum(w[..n])
  {
    if n > 0 {
      OrderUpToSum(gs, w, n - 1);
      SumLast(w, n);
      OrderUnfold(gs, n - 1);
      InsertedSelection(gs, w, OrderUpTo(gs, n - 1), n - 1);
    }
  }

  lemma SumLast(w: seq<int>, n: nat)
    requires 0 < n <= |w|
    ensures Sum(w[..n]) == Sum(w[..n - 1]) + w[n - 1]
  {
    SumOfAppend(Itself, w[..n - 1], w[n - 1]);
    assert w[..n - 1] + [w[n - 1]] == w[..n];
  }

  /** A row of numbers that is zero off the usable grants has the same sum in payment order. */
  lemma SelectionSum(gs: seq<Grant>, w: seq<int>)
    requires |w| == |gs|
    requires forall i | 0 <= i < |gs| :: !Usable(gs[i]) ==> w[i] == 0
    ensures Sum(Select(w, Order(gs))) == Sum(w)
  {
    OrderUpToSum(gs, w, |gs|);
    assert w[..|w|] == w;
  }

  function UsableAmounts(gs: seq<Grant>): seq<int> {
    seq(|gs|, i requires 0 <= i < |gs| => UsableAmount(gs[i]))
  }

  lemma {:induction false} SumUsableAmounts(gs: seq<Grant>)
    ensures Sum(UsableAmounts(gs)) == SumOf(UsableAmount, gs)
  {
    if gs != [] {
      SumUsableAmounts(gs[1..]);
      assert UsableAmounts(gs)[1..] == UsableAmounts(gs[1..]);
    }
  }

  /** The payment order lists each usable grant once, by expiry, and holds all usable credit. */
  lemma OrderFacts(gs: seq<Grant>)
    ensures SortedByExpiry(gs, Order(gs)) && DistinctIndices(Order(gs))
    ensures NonNegative(Pots(gs, Order(gs)))
    ensures Sum(Pots(gs, Order(gs))) == SumOf(UsableAmount, gs)
  {
    var order := Order(gs);
    OrderUpToSorted(gs, |gs|);
    SelectionSum(gs, UsableAmounts(gs));
    SumUsableAmounts(gs);
    forall k | 0 <= k < |order| ensures Pots(gs, order)[k] == UsableAmounts(gs)[order[k]] && 0 <= Pots(gs, order)[k] {
      OrderAt(gs, k);
    }
    assert Pots(gs, order) == Select(UsableAmounts(gs), order);
  }

  // ---- Facts about allocation records ----

  lemma {:induction false} AllocationSum(order: seq<nat>, draws: seq<int>)
    requires |order| == |draws| && NonNegative(draws)
    ensures SumAllocations(Allocations(order, draws)) == Sum(draws)
  {
    if order != [] {
      AllocationSum(order[1..], draws[1..]);
      AllocationsUnfold(order, draws);
    }
  }

  lemma AllocationsUnfold(order: seq<nat>, draws: seq<int>)
    requires |order| == |draws| > 0
    ensures var a, rest := Allocations(order, draws), Allocations(order[1..], draws[1..]);
            if draws[0] > 0 then a != [] && a[0] == Allocation(order[0], draws[0]) && a[1..] == rest else a == rest
  {
  }

  lemma {:induction false} AllocationFacts(order: seq<nat>, draws: seq<int>)
    requires |order| == |draws| && NonNegative(draws) && DistinctIndices(order)
    ensures var a := Allocations(order, draws);
            && Positive(a) && DistinctGrants(a)
            && (forall j | 0 <= j < |a| :: a[j].grantId in order)
  {
    if order != [] {
      var a, rest := Allocations(order, draws), Allocations(order[1..], draws[1..]);
      AllocationFacts(order[1..], draws[1..]);
      AllocationsUnfold(order, draws);
      forall j | 0 <= j < |rest| ensures rest[j].grantId in order && rest[j].grantId != order[0] {
        assert rest[j].grantId in order[1..];
      }
      if draws[0] > 0 {
        assert forall j | 0 < j < |a| :: a[j] == rest[j - 1];
      }
    }
  }

  lemma {:induction false} AllocationFor(order: seq<nat>, draws: seq<int>, k: nat)
    requires |order| == |draws| && NonNegative(draws) && DistinctIndices(order) && k < |order|
    ensures AmountFor(Allocations(order, draws), order[k]) == draws[k]
  {
    AllocationsUnfold(order, draws);
    var tail, rest := order[1..], Allocations(order[1..], draws[1..]);
    assert order[k] == if k == 0 then order[0] else tail[k - 1];
    if k > 0 {
      assert order[k] != order[0];
      AllocationFor(tail, draws[1..], k - 1);
    } else {
      AllocationFacts(tail, draws[1..]);
      assert order[0] !in tail;
      NotAllocated(rest, tail, order[0]);
    }
  }

  lemma {:induction false} NotAllocated(a: seq<Allocation>, order: seq<nat>, i: nat)
    requires NotNegative(a) && (forall j | 0 <= j < |a| :: a[j].grantId in order) && i !in order
    ensures AmountFor(a, i) == 0
  {
    AmountForNotNegative(a, i);
  }

  /** Everything a caller needs to know of the grant part of an allocation: distinct usable
      grants, positive amounts within what is left, and the total. */
  lemma GrantDrawFacts(gs: seq<Grant>, amount: int)
    requires 0 <= amount
    ensures var a := GrantDraws(gs, amount);
            && Positive(a) && DistinctGrants(a) && Within(a, |gs|)
            && SumAllocations(a) == Min(amount, SumOf(UsableAmount, gs))
            && forall i | 0 <= i < |gs| :: WithinGrant(gs[i], AmountFor(a, i))
  {
    var order := Order(gs);
    var draws := Draw(Pots(gs, order), amount);
    OrderFacts(gs);
    DrawBounds(Pots(gs, order), amount);
    AllocationFacts(order, draws);
    AllocationSum(order, draws);
    var a := GrantDraws(gs, amount);
    forall i | 0 <= i < |gs| ensures WithinGrant(gs[i], AmountFor(a, i)) {
      DrawnFrom(gs, order, draws, i);
    }
    forall k | 0 <= k < |a| ensures a[k].grantId < |gs| {
      assert a[k].grantId in order;
    }
  }

  /** An amount is nothing, or comes out of a usable grant that has as much. */
  predicate WithinGrant(g: Grant, amount: int) {
    0 <= amount && (amount > 0 ==> Usable(g) && amount <= g.remaining)
  }

  lemma DrawnFrom(gs: seq<Grant>, order: seq<nat>, draws: seq<int>, i: nat)
    requires order == Order(gs) && |draws| == |order| && DistinctIndices(order) && i < |gs|
    requires forall k | 0 <= k < |order| :: 0 <= draws[k] <= Pots(gs, order)[k]
    ensures WithinGrant(gs[i], AmountFor(Allocations(order, draws), i))
  {
    if k: nat :| k < |order| && order[k] == i {
      AllocationFor(order, draws, k);
      OrderAt(gs, k);
    } else {
      AllocationFacts(order, draws);
      NotAllocated(Allocations(order, draws), order, i);
    }
  }

  // ---- Main results on allocation ----

  ghost predicate GrantsInBounds(gs: seq<Grant>) {
    forall i | 0 <= i < |gs| :: 0 <= gs[i].remaining <= gs[i].original
  }

  lemma {:induction false} UsableCreditNotNegative(gs: seq<Grant>)
    requires GrantsInBounds(gs)
    ensures 0 <= SumOf(UsableAmount, gs) <= SumOf(Remaining, gs)
  {
    if gs != [] {
      assert GrantsInBounds(gs[1..]);
      UsableCreditNotNegative(gs[1..]);
    }
  }

  /** Putting back everything a debit took is the identity on grants that have not expired. */
  lemma RestoreUndoesDebit(gs: seq<Grant>, amount: int, now: int)
    requires 0 <= amount && GrantsInBounds(gs)
    requires forall i | 0 <= i < |gs| :: Usable(gs[i]) ==> now < gs[i].expiresAt
    ensures var a := GrantDraws(gs, amount);
            RestoreAll(DebitAll(gs, a), a, now) == gs
  {
    var a := GrantDraws(gs, amount);
    GrantDrawFacts(gs, amount);
    var debited := DebitAll(gs, a);
    forall i | 0 <= i < |gs| ensures debited[i] == Debited(gs[i], AmountFor(a, i)) {
      DebitAllAt(gs, a, i);
    }
    forall i | 0 <= i < |gs| ensures RestoreAll(debited, a, now)[i] == gs[i] {
      RestoreAllAt(debited, a, now, i);
    }
  }

  /** Allocation succeeds exactly when wallet and usable credit cover the amount; it takes from
      the wallet only what credit does not cover; and a refusal changes nothing but marks
      grants that have expired. */
  lemma AllocateOutcome(f: Funds, amount: int, now: int)
    requires 0 <= amount && 0 <= f.balance && GrantsInBounds(f.grants)
    ensures var (f', r) := Allocate(f, amount, now);
            var credit := UsableCredit(f.grants, now);
            && (r.Ok? <==> amount <= f.balance + credit)
            && (r.Ok? ==>
                  && r.value.wallet == Max(0, amount - credit)
                  && r.value.wallet + SumAllocations(r.value.allocations) == amount
                  && f'.balance == f.balance - r.value.wallet)
            && (r.Err? ==> f' == Funds(f.balance, ExpireGrants(f.grants, now)))
  {
    var gs := ExpireGrants(f.grants, now);
    GrantDrawFacts(gs, amount);
    assert GrantsInBounds(gs);
    UsableCreditNotNegative(gs);
    RestoreUndoesDebit(gs, amount, now);
  }

  /** What a successful allocation does to every grant, and to the total left in grants. */
  lemma AllocateGrants(f: Funds, amount: int, now: int)
    requires 0 <= amount
    requires Allocate(f, amount, now).1.Ok?
    ensures var (f', r) := Allocate(f, amount, now);
            var a := r.value.allocations;
            && |f'.grants| == |f.grants|
            && Positive(a) && DistinctGrants(a) && Within(a, |f.grants|)
            && SumOf(Remaining, f'.grants) == SumOf(Remaining, f.grants) - SumAllocations(a)
            && forall i | 0 <= i < |f.grants| ::
                 && 0 <= AmountFor(a, i)
                 && (AmountFor(a, i) > 0 ==> AmountFor(a, i) <= f.grants[i].remaining && now < f.grants[i].expiresAt)
                 && f'.grants[i] == Debited(ExpireGrant(f.grants[i], now), AmountFor(a, i))
  {
    var gs := ExpireGrants(f.grants, now);
    GrantDrawFacts(gs, amount);
    var a := GrantDraws(gs, amount);
    var gs' := DebitAll(gs, a);
    forall i | 0 <= i < |gs| ensures gs'[i] == Debited(gs[i], AmountFor(a, i)) {
      DebitAllAt(gs, a, i);
    }
    RemainingAfter(gs', f.grants, a);
  }
}
