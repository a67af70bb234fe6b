/** What earliest-expiry-first allocation is for: it keeps the longest-lived credit, and
    charging a reservation is the same as charging directly. */
module FundsTheorems {
  import opened Common
  import opened Draws
  import opened Funds

  // ---- Optimality ----

  /** The credit in grants that expire after a moment. */
  function Later(gs: seq<Grant>, moment: int): (r: seq<int>)
    ensures |r| == |gs|
    ensures forall i | 0 <= i < |gs| :: r[i] == if gs[i].expiresAt > moment then UsableAmount(gs[i]) else 0
  {
    seq(|gs|, i requires 0 <= i < |gs| => if gs[i].expiresAt > moment then UsableAmount(gs[i]) else 0)
  }

  function CreditExpiringAfter(gs: seq<Grant>, moment: int): int {
    Sum(Later(gs, moment))
  }

  /** Grants that some way of paying could leave: same grants, no usable credit added. */
  ghost predicate CouldLeave(gs: seq<Grant>, left: seq<Grant>) {
    && |left| == |gs|
    && forall i | 0 <= i < |gs| ::
         left[i].expiresAt == gs[i].expiresAt && 0 <= UsableAmount(left[i]) <= UsableAmount(gs[i])
  }

  /** What paying took from each grant that expires by a moment. */
  function TakenBy(gs: seq<Grant>, left: seq<Grant>, moment: int): (r: seq<int>)
    requires |left| == |gs|
    ensures |r| == |gs|
    ensures forall i | 0 <= i < |gs| ::
              r[i] == if gs[i].expiresAt > moment then 0 else UsableAmount(gs[i]) - UsableAmount(left[i])
  {
    seq(|gs|, i requires 0 <= i < |gs| =>
      if gs[i].expiresAt > moment then 0 else UsableAmount(gs[i]) - UsableAmount(left[i]))
  }

  lemma {:induction false} TakenAndLater(gs: seq<Grant>, left: seq<Grant>, moment: int)
    requires CouldLeave(gs, left)
    ensures SumOf(UsableAmount, gs) - SumOf(UsableAmount, left)
            == Sum(TakenBy(gs, left, moment)) + CreditExpiringAfter(gs, moment) - CreditExpiringAfter(left, moment)
  {
    if gs != [] {
      assert gs[0].expiresAt == left[0].expiresAt;
      assert forall i | 0 <= i < |gs[1..]| :: gs[1..][i] == gs[i + 1] && left[1..][i] == left[i + 1];
      TakenAndLater(gs[1..], left[1..], moment);
      assert TakenBy(gs, left, moment)[1..] == TakenBy(gs[1..], left[1..], moment);
      assert Later(gs, moment)[1..] == Later(gs[1..], moment);
      assert Later(left, moment)[1..] == Later(left[1..], moment);
    }
  }

  /** The length of the front part of the payment order that expires by a moment. */
  function FrontBy(gs: seq<Grant>, order: seq<nat>, moment: int): (m: nat)
    requires Indices(gs, order)
    ensures m <= |order|
    ensures forall k | 0 <= k < m :: gs[order[k]].expiresAt <= moment
    ensures m < |order| ==> gs[order[m]].expiresAt > moment
  {
    if order == [] || gs[order[0]].expiresAt > moment then 0 else 1 + FrontBy(gs, order[1..], moment)
  }

  /** A row that is zero behind a front part sums to the sum of the front part. */
  lemma {:induction false} SumFront(s: seq<int>, m: nat)
    requires m <= |s| && forall k | m <= k < |s| :: s[k] == 0
    ensures Sum(s) == Sum(s[..m])
  {
    SumSplit(s, m);
    SumZeros(s[m..]);
  }

  lemma {:induction false} SumZeros(s: seq<int>)
    requires forall k | 0 <= k < |s| :: s[k] == 0
    ensures Sum(s) == 0
  {
    if s != [] {
      SumZeros(s[1..]);
    }
  }

  /** In payment order, what was taken by a moment is a front part of what was taken. */
  lemma TakenInOrder(gs: seq<Grant>, left: seq<Grant>, moment: int, taken: seq<int>)
    requires CouldLeave(gs, left) && |taken| == |Order(gs)|
    requires forall k | 0 <= k < |taken| ::
               taken[k] == UsableAmount(gs[Order(gs)[k]]) - UsableAmount(left[Order(gs)[k]])
    ensures Sum(TakenBy(gs, left, moment)) == Sum(taken[..FrontBy(gs, Order(gs), moment)])
  {
    var order := Order(gs);
    var m := FrontBy(gs, order, moment);
    OrderFacts(gs);
    SelectionSum(gs, TakenBy(gs, left, moment));
    var s := Select(TakenBy(gs, left, moment), order);
    forall k | m <= k < |s| ensures s[k] == 0 {
      assert gs[order[m]].expiresAt <= gs[order[k]].expiresAt;
    }
    SumFront(s, m);
    assert s[..m] == taken[..m];
  }

  lemma TakenSum(gs: seq<Grant>, left: seq<Grant>, w: seq<int>)
    requires |left| == |gs| && w == seq(|gs|, i requires 0 <= i < |gs| => UsableAmount(gs[i]) - UsableAmount(left[i]))
    ensures Sum(w) == SumOf(UsableAmount, gs) - SumOf(UsableAmount, left)
  {
    SumUsableAmounts(gs);
    SumUsableAmounts(left);
    SumAdd(w, UsableAmounts(left), UsableAmounts(gs));
  }

  /** All of what was taken, in payment order. */
  lemma TakenTotal(gs: seq<Grant>, left: seq<Grant>, taken: seq<int>)
    requires CouldLeave(gs, left) && |taken| == |Order(gs)|
    requires forall k | 0 <= k < |taken| ::
               taken[k] == UsableAmount(gs[Order(gs)[k]]) - UsableAmount(left[Order(gs)[k]])
    ensures Sum(taken) == SumOf(UsableAmount, gs) - SumOf(UsableAmount, left)
  {
    var w := seq(|gs|, i requires 0 <= i < |gs| => UsableAmount(gs[i]) - UsableAmount(left[i]));
    TakenSum(gs, left, w);
    SelectionSum(gs, w);
    assert taken == Select(w, Order(gs));
  }

  lemma AllocationTakesAt(f: Funds, amount: int, now: int, i: nat)
    requires 0 <= amount && GrantsInBounds(f.grants) && i < |f.grants|
    requires Allocate(f, amount, now).1.Ok?
    ensures var g := ExpireGrants(f.grants, now)[i];
            var g' := Allocate(f, amount, now).0.grants[i];
            var taken := AmountFor(GrantDraws(ExpireGrants(f.grants, now), amount), i);
            && g'.expiresAt == g.expiresAt
            && 0 <= taken <= UsableAmount(g)
            && UsableAmount(g') == UsableAmount(g) - taken
  {
    var gs := ExpireGrants(f.grants, now);
    GrantDrawFacts(gs, amount);
    DebitAllAt(gs, GrantDraws(gs, amount), i);
  }

  lemma GrantDrawAt(gs: seq<Grant>, amount: int, k: nat)
    requires 0 <= amount && k < |Order(gs)|
    ensures AmountFor(GrantDraws(gs, amount), Order(gs)[k]) == Draw(Pots(gs, Order(gs)), amount)[k]
  {
    OrderFacts(gs);
    DrawBounds(Pots(gs, Order(gs)), amount);
    AllocationFor(Order(gs), Draw(Pots(gs, Order(gs)), amount), k);
  }

  /** An allocation is itself a way of paying, and takes its draws in payment order. */
  lemma AllocationTakes(f: Funds, amount: int, now: int)
    requires 0 <= amount && GrantsInBounds(f.grants)
    requires Allocate(f, amount, now).1.Ok?
    ensures var gs := ExpireGrants(f.grants, now);
            var mine := Allocate(f, amount, now).0.grants;
            var order := Order(gs);
            && CouldLeave(gs, mine)
            && forall k | 0 <= k < |order| ::
                 Draw(Pots(gs, order), amount)[k] == UsableAmount(gs[order[k]]) - UsableAmount(mine[order[k]])
  {
    var gs := ExpireGrants(f.grants, now);
    var mine := Allocate(f, amount, now).0.grants;
    var order := Order(gs);
    forall i | 0 <= i < |gs|
      ensures mine[i].expiresAt == gs[i].expiresAt && 0 <= UsableAmount(mine[i]) <= UsableAmount(gs[i])
    {
      AllocationTakesAt(f, amount, now, i);
    }
    forall k | 0 <= k < |order|
      ensures Draw(Pots(gs, order), amount)[k] == UsableAmount(gs[order[k]]) - UsableAmount(mine[order[k]])
    {
      GrantDrawAt(gs, amount, k);
      AllocationTakesAt(f, amount, now, order[k]);
    }
  }

  /** Among all ways of paying that spend as much credit, earliest-expiry-first leaves, for
      every future moment, the most credit that is still good after it. */
  lemma EarliestExpiryFirstIsOptimal(f: Funds, amount: int, now: int, other: seq<Grant>, moment: int)
    requires 0 <= amount && GrantsInBounds(f.grants)
    requires Allocate(f, amount, now).1.Ok?
    requires CouldLeave(ExpireGrants(f.grants, now), other)
    requires SumOf(UsableAmount, other) == SumOf(UsableAmount, Allocate(f, amount, now).0.grants)
    ensures CreditExpiringAfter(other, moment) <= CreditExpiringAfter(Allocate(f, amount, now).0.grants, moment)
  {
    var gs := ExpireGrants(f.grants, now);
    var mine := Allocate(f, amount, now).0.grants;
    var order := Order(gs);
    var pots := Pots(gs, order);
    var draws := Draw(pots, amount);
    OrderFacts(gs);
    DrawBounds(pots, amount);
    AllocationTakes(f, amount, now);
    var taken := seq(|order|, k requires 0 <= k < |order| =>
      UsableAmount(gs[order[k]]) - UsableAmount(other[order[k]]));
    forall k | 0 <= k < |order| ensures 0 <= taken[k] <= pots[k] {
      assert order[k] in order;
    }
    TakenTotal(gs, other, taken);
    TakenTotal(gs, mine, draws);
    DrawIsFrontLoaded(pots, amount, taken, FrontBy(gs, order, moment));
    TakenInOrder(gs, other, moment, taken);
    TakenInOrder(gs, mine, moment, draws);
    TakenAndLater(gs, other, moment);
    TakenAndLater(gs, mine, moment);
  }
}
