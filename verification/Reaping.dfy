/** Reaping expired reservations gives the same final state however it is batched or ordered,
    and whether refunds are made one by one or summed per user. */
module Reaping {
  import opened Common
  import opened JsMap
  import opened Funds
  import opened Usage
  import opened UsageFunds
  import opened UsageMoney

  // ---- One user: some expired reservations have been released ----

  function ReleasedEntry(e: Entry<Reservation>): Entry<Reservation> {
    Entry(e.key, e.value.(status := Released))
  }

  /** The reservations of a user of which some, all expired, have been released. */
  ghost predicate SomeReleased(rs0: Dict<Reservation>, rs: Dict<Reservation>, now: int) {
    && |rs| == |rs0|
    && forall k | 0 <= k < |rs0| :: rs[k] == rs0[k] || (Overdue(rs0[k].value, now) && rs[k] == ReleasedEntry(rs0[k]))
  }

  /** The funds that go with them, by what is no longer held: this does not depend on any order. */
  ghost function FundsAfter(f0: Funds, rs0: Dict<Reservation>, rs: Dict<Reservation>, now: int): Funds {
    Funds(f0.balance + SumOf(HeldWallet, rs0) - SumOf(HeldWallet, rs),
          seq(|f0.grants|, i requires 0 <= i < |f0.grants| =>
            Credited(f0.grants[i], SumOf(HeldFor(i), rs0) - SumOf(HeldFor(i), rs), now)))
  }

  ghost predicate PartlyReleased(u0: User, u: User, now: int) {
    && SomeReleased(u0.reservations, u.reservations, now)
    && (forall i | 0 <= i < |u0.funds.grants| ::
          SumOf(HeldFor(i), u.reservations) <= SumOf(HeldFor(i), u0.reservations))
    && u == u0.(funds := FundsAfter(u0.funds, u0.reservations, u.reservations, now), reservations := u.reservations)
  }

  lemma StartOfRelease(u: User, now: int)
    ensures PartlyReleased(u, u, now)
  {
    assert FundsAfter(u.funds, u.reservations, u.reservations, now).grants == u.funds.grants;
  }

  lemma ReleaseHolds(u: User, k: nat, now: int, i: nat)
    requires MoneyInv(u) && k < |u.reservations| && Overdue(u.reservations[k].value, now) && i < |u.funds.grants|
    ensures var u' := Release(u, k, now);
            var amount := AmountFor(u.reservations[k].value.held.allocations, i);
            && 0 <= amount
            && SumOf(HeldFor(i), u'.reservations) == SumOf(HeldFor(i), u.reservations) - amount
            && i < |u'.funds.grants| && u'.funds.grants[i] == Credited(u.funds.grants[i], amount, now)
  {
    var u' := Release(u, k, now);
    var a := u.reservations[k].value.held.allocations;
    HoldOut(u.funds, u.reservations, k, Released);
    RestoreKeeps(u.funds, u'.reservations, a, now);
    SumOfUpdate(HeldFor(i), u.reservations, k, u'.reservations[k]);
    AmountForNotNegative(a, i);
  }

  /** A grant is credited with what is no longer held for it. */
  predicate CreditedFor(g0: Grant, g: Grant, held0: int, held: int, now: int) {
    held <= held0 && g == Credited(g0, held0 - held, now)
  }

  lemma CreditedTwice(g0: Grant, g: Grant, g': Grant, held0: int, held: int, held': int, now: int)
    requires CreditedFor(g0, g, held0, held, now) && CreditedFor(g, g', held, held', now)
    ensures CreditedFor(g0, g', held0, held', now)
  {
  }

  lemma ReleaseCredits(u: User, k: nat, now: int, i: nat, u': User)
    requires MoneyInv(u) && k < |u.reservations| && Overdue(u.reservations[k].value, now) && i < |u.funds.grants|
    requires u' == Release(u, k, now)
    ensures |u'.funds.grants| == |u.funds.grants|
    ensures CreditedFor(u.funds.grants[i], u'.funds.grants[i], SumOf(HeldFor(i), u.reservations),
                        SumOf(HeldFor(i), u'.reservations), now)
  {
    ReleaseHolds(u, k, now, i);
  }

  lemma FundsAreAfter(f0: Funds, rs0: Dict<Reservation>, rs: Dict<Reservation>, now: int, f: Funds)
    requires f.balance == f0.balance + SumOf(HeldWallet, rs0) - SumOf(HeldWallet, rs) && |f.grants| == |f0.grants|
    requires forall i | 0 <= i < |f0.grants| ::
               CreditedFor(f0.grants[i], f.grants[i], SumOf(HeldFor(i), rs0), SumOf(HeldFor(i), rs), now)
    ensures f == FundsAfter(f0, rs0, rs, now)
  {
    assert f.grants == FundsAfter(f0, rs0, rs, now).grants;
  }

  lemma PartlyReleasedGrant(u0: User, u: User, now: int, i: nat)
    requires PartlyReleased(u0, u, now) && i < |u0.funds.grants|
    ensures |u.funds.grants| == |u0.funds.grants|
    ensures CreditedFor(u0.funds.grants[i], u.funds.grants[i], SumOf(HeldFor(i), u0.reservations),
                        SumOf(HeldFor(i), u.reservations), now)
  {
  }

  lemma ReleaseOneBalance(u0: User, u: User, k: nat, now: int)
    requires PartlyReleased(u0, u, now) && k < |u.reservations| && u.reservations[k].value.status == Reserved
    ensures var u' := Release(u, k, now);
            && u'.funds.balance
               == u0.funds.balance + SumOf(HeldWallet, u0.reservations) - SumOf(HeldWallet, u'.reservations)
            && |u'.funds.grants| == |u0.funds.grants|
  {
    SumOfUpdate(HeldWallet, u.reservations, k, Release(u, k, now).reservations[k]);
  }

  lemma ReleaseOneGrant(u0: User, u: User, k: nat, now: int, i: nat, u': User)
    requires MoneyInv(u) && PartlyReleased(u0, u, now) && i < |u0.funds.grants|
    requires k < |u.reservations| && Overdue(u.reservations[k].value, now) && u' == Release(u, k, now)
    ensures |u'.funds.grants| == |u0.funds.grants|
    ensures CreditedFor(u0.funds.grants[i], u'.funds.grants[i], SumOf(HeldFor(i), u0.reservations),
                        SumOf(HeldFor(i), u'.reservations), now)
  {
    PartlyReleasedGrant(u0, u, now, i);
    ReleaseCredits(u, k, now, i, u');
    CreditedTwice(u0.funds.grants[i], u.funds.grants[i], u'.funds.grants[i], SumOf(HeldFor(i), u0.reservations),
                  SumOf(HeldFor(i), u.reservations), SumOf(HeldFor(i), u'.reservations), now);
  }

  lemma ReleaseOneFunds(u0: User, u: User, k: nat, now: int, u': User)
    requires MoneyInv(u) && PartlyReleased(u0, u, now)
    requires k < |u.reservations| && Overdue(u.reservations[k].value, now) && u' == Release(u, k, now)
    ensures u'.funds == FundsAfter(u0.funds, u0.reservations, u'.reservations, now)
    ensures forall i | 0 <= i < |u0.funds.grants| ::
              SumOf(HeldFor(i), u'.reservations) <= SumOf(HeldFor(i), u0.reservations)
  {
    ReleaseOneBalance(u0, u, k, now);
    forall i | 0 <= i < |u0.funds.grants|
      ensures CreditedFor(u0.funds.grants[i], u'.funds.grants[i], SumOf(HeldFor(i), u0.reservations),
                          SumOf(HeldFor(i), u'.reservations), now)
    {
      ReleaseOneGrant(u0, u, k, now, i, u');
    }
    FundsAreAfter(u0.funds, u0.reservations, u'.reservations, now, u'.funds);
  }

  lemma ReleaseOneRecord(u0: User, u: User, k: nat, now: int)
    requires SomeReleased(u0.reservations, u.reservations, now)
    requires k < |u.reservations| && Overdue(u.reservations[k].value, now)
    ensures SomeReleased(u0.reservations, Release(u, k, now).reservations, now)
  {
  }

  lemma ReleaseOne(u0: User, u: User, k: nat, now: int)
    requires MoneyInv(u) && PartlyReleased(u0, u, now)
    requires k < |u.reservations| && Overdue(u.reservations[k].value, now)
    ensures PartlyReleased(u0, Release(u, k, now), now)
  {
    ReleaseOneFunds(u0, u, k, now, Release(u, k, now));
    ReleaseOneRecord(u0, u, k, now);
  }

  ghost predicate NoneOverdue(rs: Dict<Reservation>, now: int) {
    forall k | 0 <= k < |rs| :: !Overdue(rs[k].value, now)
  }

  /** Every expired reservation released at once, every other one untouched. */
  ghost function AllReleased(u: User, now: int): User {
    var rs := seq(|u.reservations|, k requires 0 <= k < |u.reservations| =>
      if Overdue(u.reservations[k].value, now) then ReleasedEntry(u.reservations[k]) else u.reservations[k]);
    u.(funds := FundsAfter(u.funds, u.reservations, rs, now), reservations := rs)
  }

  /** However releasing went, once nothing is expired the state is the one and only final state. */
  lemma FinalStateIsUnique(u0: User, u: User, now: int)
    requires PartlyReleased(u0, u, now) && NoneOverdue(u.reservations, now)
    ensures u == AllReleased(u0, now)
  {
    assert u.reservations == AllReleased(u0, now).reservations;
  }

  // ---- One user: releasing singly, in some order ----

  function ReleaseInOrder(u: User, ks: seq<nat>, now: int): User
    decreases |ks|
  {
    if ks == [] then u
    else if ks[0] < |u.reservations| && Overdue(u.reservations[ks[0]].value, now) then
      ReleaseInOrder(Release(u, ks[0], now), ks[1..], now)
    else ReleaseInOrder(u, ks[1..], now)
  }

  lemma {:induction false} ReleaseInOrderIsPartly(u0: User, u: User, ks: seq<nat>, now: int)
    requires MoneyInv(u) && PartlyReleased(u0, u, now)
    ensures MoneyInv(ReleaseInOrder(u, ks, now)) && PartlyReleased(u0, ReleaseInOrder(u, ks, now), now)
    ensures forall k | 0 <= k < |u.reservations| && (k in ks || !Overdue(u.reservations[k].value, now)) ::
              k < |ReleaseInOrder(u, ks, now).reservations|
                && !Overdue(ReleaseInOrder(u, ks, now).reservations[k].value, now)
    decreases |ks|
  {
    if ks != [] {
      var k0 := ks[0];
      assert forall k | k in ks :: k == k0 || k in ks[1..];
      if k0 < |u.reservations| && Overdue(u.reservations[k0].value, now) {
        ReleaseOne(u0, u, k0, now);
        ReleaseMoney(u, k0, now);
        ReleaseInOrderIsPartly(u0, Release(u, k0, now), ks[1..], now);
      } else {
        ReleaseInOrderIsPartly(u0, u, ks[1..], now);
      }
    }
  }

  ghost predicate Covers(rs: Dict<Reservation>, ks: seq<nat>, now: int) {
    forall k | 0 <= k < |rs| && Overdue(rs[k].value, now) :: k in ks
  }

  /** Any two orders of releasing the expired reservations, repetitions included, end alike. */
  lemma OrderDoesNotMatter(u: User, ks: seq<nat>, other: seq<nat>, now: int)
    requires MoneyInv(u) && Covers(u.reservations, ks, now) && Covers(u.reservations, other, now)
    ensures ReleaseInOrder(u, ks, now) == ReleaseInOrder(u, other, now) == AllReleased(u, now)
  {
    StartOfRelease(u, now);
    ReleaseInOrderIsPartly(u, u, ks, now);
    ReleaseInOrderIsPartly(u, u, other, now);
    FinalStateIsUnique(u, ReleaseInOrder(u, ks, now), now);
    FinalStateIsUnique(u, ReleaseInOrder(u, other, now), now);
  }

  // ---- One user: the summed refund of the Postgres twin ----

  /** Restore the grants of each released row in turn and add up the wallet refunds. */
  function SummedRefund(grants: seq<Grant>, rows: seq<Split>, refund: int, now: int): (seq<Grant>, int)
    decreases |rows|
  {
    if rows == [] then (grants, refund)
    else SummedRefund(RestoreAll(grants, rows[0].allocations, now), rows[1..], refund + rows[0].wallet, now)
  }

  function HeldRows(rs: Dict<Reservation>, ks: seq<nat>): seq<Split>
    requires forall j | 0 <= j < |ks| :: ks[j] < |rs|
  {
    seq(|ks|, j requires 0 <= j < |ks| => rs[ks[j]].value.held)
  }

  /** Restoring rows and paying the summed wallet refund once gives the funds of releasing the
      reservations one by one. */
  lemma {:induction false} SummedRefundIsSame(u: User, ks: seq<nat>, refund: int, now: int)
    requires forall j | 0 <= j < |ks| :: ks[j] < |u.reservations| && Overdue(u.reservations[ks[j]].value, now)
    requires forall i, j | 0 <= i < j < |ks| :: ks[i] != ks[j]
    ensures var (grants, total) := SummedRefund(u.funds.grants, HeldRows(u.reservations, ks), refund, now);
            ReleaseInOrder(u, ks, now).funds == Funds(u.funds.balance + total - refund, grants)
    decreases |ks|
  {
    if ks != [] {
      var u' := Release(u, ks[0], now);
      var rows := HeldRows(u.reservations, ks);
      assert rows[1..] == HeldRows(u'.reservations, ks[1..]);
      SummedRefundIsSame(u', ks[1..], refund + rows[0].wallet, now);
    }
  }

  // ---- All users: how many are expired ----

  function CountOverdue(rs: Dict<Reservation>, now: int): nat {
    if rs == [] then 0 else (if Overdue(rs[0].value, now) then 1 else 0) + CountOverdue(rs[1..], now)
  }

  function OverdueOf(now: int): Entry<User> -> int {
    (e: Entry<User>) => CountOverdue(e.value.reservations, now)
  }

  function CountAll(users: Dict<User>, now: int): int {
    SumOf(OverdueOf(now), users)
  }

  lemma {:induction false} CountUpdate(rs: Dict<Reservation>, k: nat, e: Entry<Reservation>, now: int)
    requires k < |rs| && Overdue(rs[k].value, now) && !Overdue(e.value, now)
    ensures CountOverdue(rs[k := e], now) == CountOverdue(rs, now) - 1
  {
    if k > 0 {
      CountUpdate(rs[1..], k - 1, e, now);
      assert rs[k := e][1..] == rs[1..][k - 1 := e];
    } else {
      assert rs[k := e][1..] == rs[1..];
    }
  }

  predicate IsOverdue(users: Dict<User>, c: Candidate, now: int) {
    c.user < |users| && c.reservation < |users[c.user].value.reservations|
    && Overdue(users[c.user].value.reservations[c.reservation].value, now)
  }

  ghost predicate DistinctCandidates(cs: seq<Candidate>) {
    forall i, j | 0 <= i < j < |cs| :: (cs[i].user, cs[i].reservation) != (cs[j].user, cs[j].reservation)
  }

  lemma {:induction false} BatchCount(users: Dict<User>, batch: seq<Candidate>, now: int)
    requires DistinctCandidates(batch) && forall j | 0 <= j < |batch| :: IsOverdue(users, batch[j], now)
    ensures CountAll(ReleaseBatch(users, batch, now), now) == CountAll(users, now) - |batch|
    decreases |batch|
  {
    if batch != [] {
      var c := batch[0];
      var users' := ReleaseCandidate(users, c, now);
      CountUpdate(users[c.user].value.reservations, c.reservation, users'[c.user].value.reservations[c.reservation],
                  now);
      SumOfUpdate(OverdueOf(now), users, c.user, users'[c.user]);
      forall j | 0 < j < |batch| ensures IsOverdue(users', batch[j], now) {
        assert IsOverdue(users, batch[j], now);
      }
      BatchCount(users', batch[1..], now);
    }
  }

  // ---- The candidates of a batch ----

  lemma {:induction false} UserCandidateFacts(users: Dict<User>, user: nat, now: int, n: nat)
    requires user < |users| && n <= |users[user].value.reservations|
    ensures var cs := UserCandidates(users[user].value.reservations, user, now, n);
            && |cs| == CountOverdue(users[user].value.reservations[..n], now)
            && DistinctCandidates(cs)
            && forall j | 0 <= j < |cs| :: cs[j].user == user && cs[j].reservation < n && IsOverdue(users, cs[j], now)
  {
    var rs := users[user].value.reservations;
    if n > 0 {
      UserCandidateFacts(users, user, now, n - 1);
      CountLast(rs[..n - 1], rs[n - 1], now);
      assert rs[..n] == rs[..n - 1] + [rs[n - 1]];
    }
  }

  lemma {:induction false} CountLast(rs: Dict<Reservation>, e: Entry<Reservation>, now: int)
    ensures CountOverdue(rs + [e], now) == CountOverdue(rs, now) + if Overdue(e.value, now) then 1 else 0
  {
    if rs != [] {
      CountLast(rs[1..], e, now);
      assert (rs + [e])[1..] == rs[1..] + [e];
    }
  }

  lemma {:induction false} AllCandidateFacts(users: Dict<User>, now: int, n: nat)
    requires n <= |users|
    ensures var cs := AllCandidates(users, now, n);
            && |cs| == CountAll(users[..n], now)
            && DistinctCandidates(cs)
            && forall j | 0 <= j < |cs| :: cs[j].user < n && IsOverdue(users, cs[j], now)
  {
    if n > 0 {
      AllCandidateFacts(users, now, n - 1);
      var rs := users[n - 1].value.reservations;
      UserCandidateFacts(users, n - 1, now, |rs|);
      assert rs[..|rs|] == rs;
      assert users[..n] == users[..n - 1] + [users[n - 1]];
      SumOfAppend(OverdueOf(now), users[..n - 1], users[n - 1]);
    }
  }

  lemma {:induction false} InsertFacts(c: Candidate, sorted: seq<Candidate>)
    ensures var r := InsertByLease(c, sorted);
            && |r| == |sorted| + 1
            && multiset(r) == multiset(sorted) + multiset{c}
  {
    if sorted != [] && c.lease > sorted[0].lease {
      InsertFacts(c, sorted[1..]);
      assert sorted == [sorted[0]] + sorted[1..];
    }
  }

  lemma {:induction false} SortFacts(cs: seq<Candidate>)
    ensures |SortByLease(cs)| == |cs| && multiset(SortByLease(cs)) == multiset(cs)
  {
    if cs != [] {
      SortFacts(cs[1..]);
      InsertFacts(cs[0], SortByLease(cs[1..]));
      assert cs == [cs[0]] + cs[1..];
    }
  }

  /** A rearrangement of distinct candidates is distinct. */
  lemma SortedStayDistinct(cs: seq<Candidate>, sorted: seq<Candidate>)
    requires DistinctCandidates(cs) && multiset(sorted) == multiset(cs)
    ensures DistinctCandidates(sorted)
  {
    forall i, j | 0 <= i < j < |sorted|
      ensures (sorted[i].user, sorted[i].reservation) != (sorted[j].user, sorted[j].reservation)
    {
      if sorted[i] == sorted[j] {
        Twice(sorted, i, j);
        assert multiset(cs)[sorted[i]] >= 2;
        Once(cs, sorted[i]);
      } else {
        assert sorted[i] in multiset(cs) && sorted[j] in multiset(cs);
        assert sorted[i] in cs && sorted[j] in cs;
      }
    }
  }

  lemma Twice(s: seq<Candidate>, i: nat, j: nat)
    requires i < j < |s| && s[i] == s[j]
    ensures multiset(s)[s[i]] >= 2
  {
    assert s == s[..i] + [s[i]] + s[i + 1..j] + [s[j]] + s[j + 1..];
  }

  lemma {:induction false} Once(s: seq<Candidate>, c: Candidate)
    requires DistinctCandidates(s)
    ensures multiset(s)[c] <= 1
  {
    if s != [] {
      Once(s[1..], c);
      assert s == [s[0]] + s[1..];
      if c == s[0] {
        assert c !in s[1..];
      }
    }
  }

  lemma BatchFacts(users: Dict<User>, now: int, limit: int)
    ensures var batch := Batch(users, now, limit);
            && DistinctCandidates(batch)
            && |batch| == Min(CountAll(users, now), BoundedLimit(limit))
            && forall j | 0 <= j < |batch| :: IsOverdue(users, batch[j], now)
  {
    var cs := AllCandidates(users, now, |users|);
    var sorted := SortByLease(cs);
    AllCandidateFacts(users, now, |users|);
    assert users[..|users|] == users;
    SortFacts(cs);
    SortedStayDistinct(cs, sorted);
    forall j | 0 <= j < |sorted| ensures IsOverdue(users, sorted[j], now) {
      assert sorted[j] in multiset(cs);
      assert sorted[j] in cs;
    }
  }

  /** A reap releases exactly as many reservations as its batch allows, all of them expired. */
  lemma ReapCount(users: Dict<User>, now: int, limit: int)
    ensures CountAll(Reap(users, now, limit), now) == Max(0, CountAll(users, now) - BoundedLimit(limit))
  {
    BatchFacts(users, now, limit);
    BatchCount(users, Batch(users, now, limit), now);
  }

  // ---- All users: repeated reaps ----

  function Reaper(now: int, limit: int): Dict<User> -> Dict<User> {
    (users: Dict<User>) => Reap(users, now, limit)
  }

  function Iterate<T>(f: T -> T, x: T, times: nat): T {
    if times == 0 then x else f(Iterate(f, x, times - 1))
  }

  function ReapTimes(users: Dict<User>, now: int, limit: int, times: nat): Dict<User> {
    Iterate(Reaper(now, limit), users, times)
  }

  ghost predicate UsersMoney(users: Dict<User>) {
    forall i | 0 <= i < |users| :: MoneyInv(users[i].value)
  }

  ghost predicate UsersPartly(users0: Dict<User>, users: Dict<User>, now: int) {
    && |users| == |users0|
    && forall i | 0 <= i < |users0| ::
         users[i].key == users0[i].key && PartlyReleased(users0[i].value, users[i].value, now)
  }

  lemma {:induction false} BatchPartly(users0: Dict<User>, users: Dict<User>, batch: seq<Candidate>, now: int)
    requires UsersMoney(users) && UsersPartly(users0, users, now)
    ensures UsersMoney(ReleaseBatch(users, batch, now)) && UsersPartly(users0, ReleaseBatch(users, batch, now), now)
    decreases |batch|
  {
    if batch != [] {
      var c := batch[0];
      if IsOverdue(users, c, now) {
        ReleaseOne(users0[c.user].value, users[c.user].value, c.reservation, now);
        ReleaseMoney(users[c.user].value, c.reservation, now);
      }
      BatchPartly(users0, ReleaseCandidate(users, c, now), batch[1..], now);
    }
  }

  lemma UsersStart(users: Dict<User>, now: int)
    ensures UsersPartly(users, users, now)
  {
    forall i | 0 <= i < |users| ensures PartlyReleased(users[i].value, users[i].value, now) {
      StartOfRelease(users[i].value, now);
    }
  }

  lemma {:induction false} IterateKeeps<T(!new)>(f: T -> T, x: T, times: nat, ok: T -> bool)
    requires ok(x) && forall y | ok(y) :: ok(f(y))
    ensures ok(Iterate(f, x, times))
  {
    if times > 0 {
      IterateKeeps(f, x, times - 1, ok);
    }
  }

  /** The tables that reaping may lead to. */
  ghost function Partly(users: Dict<User>, now: int): Dict<User> -> bool {
    (us: Dict<User>) => UsersMoney(us) && UsersPartly(users, us, now)
  }

  lemma ReapTimesPartly(users: Dict<User>, now: int, limit: int, times: nat)
    requires UsersMoney(users)
    ensures Partly(users, now)(ReapTimes(users, now, limit, times))
  {
    UsersStart(users, now);
    forall us: Dict<User> | Partly(users, now)(us) ensures Partly(users, now)(Reaper(now, limit)(us)) {
      ReapPartly(users, us, now, limit, Reaper(now, limit)(us));
    }
    IterateKeeps(Reaper(now, limit), users, times, Partly(users, now));
  }

  lemma ReapPartly(users0: Dict<User>, users: Dict<User>, now: int, limit: int, after: Dict<User>)
    requires UsersMoney(users) && UsersPartly(users0, users, now) && after == Reap(users, now, limit)
    ensures UsersMoney(after) && UsersPartly(users0, after, now)
  {
    BatchPartly(users0, users, Batch(users, now, limit), now);
  }

  /** How many releases a number of full batches makes. */
  function Releases(times: nat, batch: nat): (r: nat) {
    if times == 0 then 0 else Releases(times - 1, batch) + batch
  }

  lemma {:induction false} ReleasesAre(times: nat, batch: nat)
    ensures Releases(times, batch) == times * batch
  {
    if times > 0 {
      ReleasesAre(times - 1, batch);
      assert times * batch == (times - 1) * batch + batch;
    }
  }

  lemma CountNotNegative(users: Dict<User>, now: int)
    ensures 0 <= CountAll(users, now)
  {
    AllCandidateFacts(users, now, |users|);
    assert users[..|users|] == users;
  }

  lemma {:induction false} IterateCount(f: Dict<User> -> Dict<User>, users: Dict<User>, now: int, times: nat,
                                        batch: nat)
    requires forall us: Dict<User> :: CountAll(f(us), now) == Max(0, CountAll(us, now) - batch)
    ensures CountAll(Iterate(f, users, times), now) == Max(0, CountAll(users, now) - Releases(times, batch))
  {
    if times == 0 {
      CountNotNegative(users, now);
    } else {
      IterateCount(f, users, now, times - 1, batch);
    }
  }

  lemma ReapTimesCount(users: Dict<User>, now: int, limit: int, times: nat)
    ensures CountAll(ReapTimes(users, now, limit, times), now)
            == Max(0, CountAll(users, now) - Releases(times, BoundedLimit(limit)))
  {
    forall us: Dict<User>
      ensures CountAll(Reaper(now, limit)(us), now) == Max(0, CountAll(us, now) - BoundedLimit(limit))
    {
      ReapCount(us, now, limit);
    }
    IterateCount(Reaper(now, limit), users, now, times, BoundedLimit(limit));
  }

  lemma {:induction false} CountZero(rs: Dict<Reservation>, now: int)
    requires CountOverdue(rs, now) == 0
    ensures NoneOverdue(rs, now)
  {
    if rs != [] {
      CountZero(rs[1..], now);
      assert forall k | 0 < k < |rs| :: rs[k] == rs[1..][k - 1];
    }
  }

  lemma {:induction false} CountAllZero(users: Dict<User>, now: int, i: nat)
    requires CountAll(users, now) == 0 && i < |users|
    ensures CountOverdue(users[i].value.reservations, now) == 0
  {
    SumOfNonNegative(OverdueOf(now), users);
    assert users[i] in users;
  }

  /** Bounded reaps at a fixed moment, repeated often enough for the backlog, whatever the batch
      size, leave every user exactly as releasing all expired reservations at once would: each
      refunded once, none left expired, and no other reservation touched. */
  lemma RepeatedReapsReleaseAll(users: Dict<User>, now: int, limit: int, times: nat, i: nat)
    requires UsersMoney(users) && i < |users|
    requires CountAll(users, now) <= times * BoundedLimit(limit)
    ensures i < |ReapTimes(users, now, limit, times)|
    ensures ReapTimes(users, now, limit, times)[i] == Entry(users[i].key, AllReleased(users[i].value, now))
  {
    ReapTimesPartly(users, now, limit, times);
    ReapTimesCount(users, now, limit, times);
    ReleasesAre(times, BoundedLimit(limit));
    FinalUser(users, ReapTimes(users, now, limit, times), now, i);
  }

  lemma FinalUser(users: Dict<User>, final: Dict<User>, now: int, i: nat)
    requires UsersPartly(users, final, now) && CountAll(final, now) == 0 && i < |users|
    ensures |final| == |users| && final[i] == Entry(users[i].key, AllReleased(users[i].value, now))
  {
    CountAllZero(final, now, i);
    CountZero(final[i].value.reservations, now);
    FinalStateIsUnique(users[i].value, final[i].value, now);
  }
}
